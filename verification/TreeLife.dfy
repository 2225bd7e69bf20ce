/**
  Creating and destroying whole address spaces: the tree of a new process, and
  the release of a tree with everything it maps (kernel/vm.c: uvmcreate, uvmfree;
  kernel/proc.c: proc_pagetable, proc_freepagetable).
 */
module TreeLife {
  import opened Sv39
  import opened Kalloc
  import opened PageTable
  import opened PageWalk
  import opened Freewalk
  import opened Cow
  import opened Vm

  // ---------------------------------------------------------------------
  // A new tree

  /** A zeroed page in hand becomes the root of an empty tree. */
  ghost function Planted(s: Memory, c: nat): Memory {
    s.(role := s.role[c := Table(c, 2, 0, c)])
  }

  lemma PlantedTree(s: Memory, c: nat)
    requires TreeInv(s) && c in s.role && s.role[c].Held? && s.ptes[c] == FilledTable(0)
    ensures TreeInv(Planted(s, c))
    ensures forall q :: IsRoot(Planted(s, c), q) <==> IsRoot(s, q) || q == c
  {
    var s' := Planted(s, c);
    assert Bounds(s');
    assert forall q :: IsTable(s', q) <==> IsTable(s, q) || q == c;
    forall q | IsTable(s', q) ensures Up(s', q) {
      if q != c { assert IsTable(s, q) && Up(s, q); }
    }
    forall q, j: nat | IsTable(s', q) && j < TABLE_SIZE ensures Down(s', q, j) {
      if q != c { assert IsTable(s, q) && Down(s, q, j); }
    }
  }

  lemma PlantedEntry(s: Memory, c: nat, q: nat, v: nat)
    requires TreeInv(s) && c in s.role && s.role[c].Held? && s.ptes[c] == FilledTable(0) && v < MAX_VPN
    requires IsRoot(s, q) || q == c
    ensures Bounds(Planted(s, c)) && q in Planted(s, c).role
    ensures Entry(Planted(s, c), q, v) == if q == c then ZERO_PTE else Entry(s, q, v)
  {
    PlantedTree(s, c);
    if q != c {
      PathRoles(s, q, v);
      PathRoles(Planted(s, c), q, v);
    }
  }

  ghost predicate CanPlant(s: Memory, c: nat) {
    VmInv(s) && c in s.role && s.role[c].Held? && s.ptes[c] == FilledTable(0)
  }

  /** The trees of s are unchanged and an empty tree c has been added. */
  ghost predicate OneMore(s: Memory, s': Memory, c: nat)
    requires Bounds(s) && Bounds(s')
  {
    && s'.role.Keys == s.role.Keys
    && (forall q :: IsRoot(s', q) <==> IsRoot(s, q) || q == c)
    && (forall q, v: nat | IsRoot(s', q) && v < MAX_VPN ::
          Entry(s', q, v) == if q == c then ZERO_PTE else Entry(s, q, v))
  }

  lemma PlantedShape(s: Memory, c: nat)
    requires CanPlant(s, c)
    ensures var s' := Planted(s, c); AllocInv(s') && TreeInv(s') && OneMore(s, s', c)
  {
    hide Entry, LeavesOk, RefsOk, Injective;
    var s' := Planted(s, c);
    assert AllocInv(s');
    hide Linked, ListInv;
    PlantedTree(s, c);
    forall q, v: nat | IsRoot(s', q) && v < MAX_VPN
      ensures Entry(s', q, v) == if q == c then ZERO_PTE else Entry(s, q, v)
    {
      PlantedEntry(s, c, q, v);
    }
  }

  lemma PlantedInv(s: Memory, c: nat)
    requires CanPlant(s, c)
    ensures VmInv(Planted(s, c))
  {
    hide Linked, ListInv, Entry, Leaf;
    var s' := Planted(s, c);
    PlantedShape(s, c);
    NotARoot(s, c);
    assert forall a, b, p :: Maps(s', a, b, p) <==> Maps(s, a, b, p);
    forall p ensures Refs(s', p) == Refs(s, p) { RefsSame(s, s', p); }
    forall a, b: nat | IsRoot(s', a) && b < MAX_VPN ensures LeafOk(s', a, b) {
      if a != c { assert LeafOk(s, a, b); }
    }
  }

  lemma NotARoot(s: Memory, c: nat)
    requires c in s.role && !s.role[c].Table?
    ensures !IsRoot(s, c)
  {
  }

  lemma PlantedAlike(s: Memory, c: nat)
    requires CanPlant(s, c)
    ensures Bounds(Planted(s, c)) && Cleared(Planted(s, c), c, 0, MAX_VPN)
    ensures forall q, v: nat | IsRoot(s, q) && v < MAX_VPN :: Alike(s, Planted(s, c), q, v)
  {
    hide Linked, AllocInv, Entry, Leaf, RefsOk, Injective;
    var s' := Planted(s, c);
    PlantedShape(s, c);
    NotARoot(s, c);
    assert IsRoot(s', c);
    forall q, v: nat | IsRoot(s, q) && v < MAX_VPN ensures Alike(s, s', q, v) {
      assert LeafOk(s, q, v);
    }
  }

  // ---------------------------------------------------------------------
  // A tree felled

  lemma UnderRoot(s: Memory, p: nat, r: nat)
    requires TreeInv(s) && IsRoot(s, r) && IsTable(s, p)
    ensures Under(s, p, r) <==> s.role[p].root == r
  {
    assert Up(s, p);
    if s.role[p].level < 2 {
      assert Up(s, s.role[p].parent);
    }
  }

  lemma ClearedNoLeaves(s: Memory, r: nat)
    requires TreeInv(s) && IsRoot(s, r) && Cleared(s, r, 0, MAX_VPN)
    ensures NoLeaves(s, r)
  {
    hide Linked, Entry, Leaf;
    forall p, j: nat | Under(s, p, r) && s.role[p].level == 0 && j < 512 ensures !s.ptes[p][j].v {
      LeafOfTable(s, p, j);
      EntryHasLeaf(s, r, s.role[p].prefix * 512 + j);
      assert Entry(s, r, s.role[p].prefix * 512 + j) == ZERO_PTE;
    }
  }

  /** The trees of s are unchanged except that the tree of r is gone. */
  ghost predicate OneLess(s: Memory, s': Memory, r: nat)
    requires Bounds(s) && Bounds(s')
  {
    && s'.lo == s.lo && s'.hi == s.hi && s'.role.Keys == s.role.Keys
    && (forall q :: IsRoot(s', q) <==> IsRoot(s, q) && q != r)
    && (forall q, v: nat | IsRoot(s', q) && v < MAX_VPN :: Entry(s', q, v) == Entry(s, q, v))
    && (forall p | p in s.role ::
          if s.role[p].Table? && s.role[p].root == r then s'.role[p].Free?
          else s'.role[p] == s.role[p] && s'.refcnt[p] == s.refcnt[p] && s'.bytes[p] == s.bytes[p])
  }

  lemma FelledShape(s: Memory, s': Memory, r: nat)
    requires TreeInv(s) && TreeInv(s') && IsRoot(s, r) && FreedBelow(s, s', r)
    ensures OneLess(s, s', r)
  {
    forall p | p in s.role
      ensures if s.role[p].Table? && s.role[p].root == r then s'.role[p].Free?
              else Unchanged(s, s', p) && s'.ptes[p] == s.ptes[p]
    {
      if IsTable(s, p) { UnderRoot(s, p, r); }
    }
    hide Linked, FreedBelow, Under;
    forall q, v: nat | IsRoot(s', q) && v < MAX_VPN ensures Entry(s', q, v) == Entry(s, q, v) {
      PathRoles(s, q, v);
    }
  }

  lemma FelledMaps(s: Memory, s': Memory, r: nat, a: nat, b: nat, p: nat)
    requires Bounds(s) && Bounds(s') && IsRoot(s, r) && Cleared(s, r, 0, MAX_VPN) && OneLess(s, s', r)
    ensures Maps(s', a, b, p) <==> Maps(s, a, b, p)
  {
    hide Entry;
  }

  lemma FelledLeaf(s: Memory, s': Memory, r: nat, a: nat, b: nat)
    requires VmInv(s) && AllocInv(s') && TreeInv(s') && OneLess(s, s', r) && IsRoot(s', a) && b < MAX_VPN
    ensures LeafOk(s', a, b) && Alike(s, s', a, b)
  {
    hide Linked, ListInv, Entry, Leaf, RefsOk, Injective;
    assert LeafOk(s, a, b);
    if Entry(s, a, b).v && b < TRAPFRAME_VPN {
      assert s.role[Entry(s, a, b).ppn].User?;
    }
  }

  lemma FelledInv(s: Memory, s': Memory, r: nat)
    requires VmInv(s) && AllocInv(s') && TreeInv(s') && IsRoot(s, r) && Cleared(s, r, 0, MAX_VPN) && OneLess(s, s', r)
    ensures VmInv(s')
    ensures forall q, v: nat | IsRoot(s', q) && v < MAX_VPN :: Alike(s, s', q, v)
  {
    hide Linked, ListInv, Entry, Leaf, LeafOk, Maps, Cleared, Alike;
    forall a: nat, b: nat, p: nat ensures Maps(s', a, b, p) <==> Maps(s, a, b, p) {
      FelledMaps(s, s', r, a, b, p);
    }
    forall p: nat ensures Refs(s', p) == Refs(s, p) { RefsSame(s, s', p); }
    forall a, b: nat | IsRoot(s', a) && b < MAX_VPN ensures LeafOk(s', a, b) && Alike(s, s', a, b) {
      FelledLeaf(s, s', r, a, b);
    }
  }

  /**
    The tree of r and everything it mapped have been released: its table pages are
    free, its references are dropped, and no other process sees a difference.
   */
  ghost predicate TreeGone(s: Memory, s': Memory, r: nat) {
    && VmInv(s) && VmInv(s') && HeldSame(s, s')
    && s'.lo == s.lo && s'.hi == s.hi && s'.role.Keys == s.role.Keys
    && (forall q :: IsRoot(s', q) <==> IsRoot(s, q) && q != r)
    && (forall q, v: nat | IsRoot(s', q) && v < MAX_VPN :: Alike(s, s', q, v))
    && (forall p | p in s.role ::
          if s.role[p].Table? && s.role[p].root == r then s'.role[p].Free?
          else if Loose(s.role[p]) then Loose(s'.role[p])
          else s'.role[p] == s.role[p])
  }

  lemma StepThenGone(a: Memory, b: Memory, c: Memory, r: nat)
    requires Step(a, b, r, 0, MAX_VPN) && HeldSame(a, b) && TreeGone(b, c, r)
    ensures TreeGone(a, c, r)
  {
    hide Linked, AllocInv, Entry, Leaf, LeavesOk, RefsOk, Injective, Sees;
    forall q, v: nat | IsRoot(c, q) && v < MAX_VPN ensures Alike(a, c, q, v) {
      assert Alike(a, b, q, v) && Alike(b, c, q, v);
    }
    assert forall p :: p in a.role <==> p in b.role;
  }

  /** freewalk on a root whose map is empty. */
  method FellTree(m: Machine, r: nat)
    requires VmInv(m.mem) && IsRoot(m.mem, r) && Cleared(m.mem, r, 0, MAX_VPN)
    modifies m`mem
    ensures TreeGone(old(m.mem), m.mem, r)
  {
    hide Linked, ListInv, Entry, Leaf, LeavesOk, RefsOk, Injective, NoLeaves, FreedBelow, LinkedBut, Alike;
    ghost var s := m.mem;
    ClearedNoLeaves(s, r);
    FreeWalk(m, r);
    FelledShape(s, m.mem, r);
    FelledInv(s, m.mem, r);
  }

  /** uvmfree: drop the user pages, then the table pages. */
  method Uvmfree(m: Machine, r: nat, sz: nat)
    requires VmInv(m.mem) && IsRoot(m.mem, r) && PagesFor(sz) <= TRAPFRAME_VPN
    requires Mapped(m.mem, r, 0, PagesFor(sz)) && Cleared(m.mem, r, PagesFor(sz), MAX_VPN)
    modifies m`mem
    ensures TreeGone(old(m.mem), m.mem, r)
  {
    hide Linked, AllocInv, Entry, Leaf, LeavesOk, RefsOk, Injective, Sees, SameOutside;
    ghost var s := m.mem;
    if sz > 0 {
      Uvmunmap(m, r, 0, PagesFor(sz), true);
      RangeFrame(s, m.mem, r, 0, PagesFor(sz), PagesFor(sz), MAX_VPN);
      StepWiden(s, m.mem, r, 0, PagesFor(sz), 0, MAX_VPN);
    } else {
      StepReflexive(s, r, 0, MAX_VPN);
    }
    ghost var b := m.mem;
    FellTree(m, r);
    StepThenGone(s, b, m.mem, r);
  }

  /** Releases a process's tree: the two supervisor pages, then uvmfree. */
  method ProcFreepagetable(m: Machine, r: nat, sz: nat)
    requires VmInv(m.mem) && IsRoot(m.mem, r) && PagesFor(sz) <= TRAPFRAME_VPN
    requires Mapped(m.mem, r, 0, PagesFor(sz)) && Cleared(m.mem, r, PagesFor(sz), TRAPFRAME_VPN)
    requires Mapped(m.mem, r, TRAPFRAME_VPN, MAX_VPN)
    modifies m`mem
    ensures TreeGone(old(m.mem), m.mem, r)
  {
    hide Linked, AllocInv, Entry, Leaf, LeavesOk, RefsOk, Injective, Sees, SameOutside;
    ghost var s := m.mem;
    Uvmunmap(m, r, TRAMPOLINE_VPN, 1, false);
    RangeFrame(s, m.mem, r, TRAMPOLINE_VPN, MAX_VPN, TRAPFRAME_VPN, TRAMPOLINE_VPN);
    RangeFrame(s, m.mem, r, TRAMPOLINE_VPN, MAX_VPN, 0, PagesFor(sz));
    RangeFrame(s, m.mem, r, TRAMPOLINE_VPN, MAX_VPN, PagesFor(sz), TRAPFRAME_VPN);
    StepWiden(s, m.mem, r, TRAMPOLINE_VPN, MAX_VPN, 0, MAX_VPN);
    ghost var a := m.mem;
    Uvmunmap(m, r, TRAPFRAME_VPN, 1, false);
    RangeFrame(a, m.mem, r, TRAPFRAME_VPN, TRAMPOLINE_VPN, TRAMPOLINE_VPN, MAX_VPN);
    RangeFrame(a, m.mem, r, TRAPFRAME_VPN, TRAMPOLINE_VPN, 0, PagesFor(sz));
    RangeFrame(a, m.mem, r, TRAPFRAME_VPN, TRAMPOLINE_VPN, PagesFor(sz), TRAPFRAME_VPN);
    StepWiden(a, m.mem, r, TRAPFRAME_VPN, TRAMPOLINE_VPN, 0, MAX_VPN);
    StepTransitive(s, a, m.mem, r, 0, MAX_VPN);
    ghost var b := m.mem;
    Uvmfree(m, r, sz);
    StepThenGone(s, b, m.mem, r);
  }
}
