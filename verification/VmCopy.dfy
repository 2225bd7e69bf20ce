/** Sharing a parent's memory with its child (kernel/vm.c: uvmcopy). */
module VmCopy {
  import opened Prelude
  import opened Sv39
  import opened Kalloc
  import opened PageTable
  import opened Supply
  import opened PageWalk
  import opened Cow
  import opened Vm

  /** The first i pages of the child map the parent's pages; it maps no other user page. */
  ghost predicate Shared(s: Memory, parent: nat, child: nat, i: nat)
    requires Bounds(s) && parent in s.role && child in s.role
  {
    && Mapped(s, child, 0, i) && Cleared(s, child, i, TRAPFRAME_VPN)
    && (forall v | 0 <= v < i :: Entry(s, parent, v).v && Entry(s, child, v).ppn == Entry(s, parent, v).ppn)
  }

  lemma SharedFrame(s: Memory, s': Memory, parent: nat, child: nat, i: nat)
    requires Step(s, s', child, i, i) && IsRoot(s, parent) && IsRoot(s, child) && i <= TRAPFRAME_VPN
    requires Shared(s, parent, child, i)
    ensures Shared(s', parent, child, i)
  {
    hide Linked, AllocInv, Entry, Leaf, LeavesOk, RefsOk, Injective, Sees;
    RangeFrame(s, s', child, i, i, 0, i);
    RangeFrame(s, s', child, i, i, i, TRAPFRAME_VPN);
    forall v | 0 <= v < i
      ensures Entry(s', parent, v).v && Entry(s', child, v).ppn == Entry(s', parent, v).ppn
    {
      assert Alike(s, s', parent, v) && Alike(s, s', child, v);
    }
  }

  /** The parent's next page is not yet mapped by the child. */
  lemma NotYetShared(s: Memory, parent: nat, child: nat, i: nat)
    requires VmInv(s) && IsRoot(s, parent) && IsRoot(s, child) && i < TRAPFRAME_VPN
    requires Shared(s, parent, child, i) && Entry(s, parent, i).v
    ensures forall b :: !Maps(s, child, b, Entry(s, parent, i).ppn)
  {
    hide Linked, AllocInv, Entry, Leaf, LeavesOk, RefsOk;
    var q := Entry(s, parent, i).ppn;
    assert Maps(s, parent, i, q);
    assert forall b: nat :: Maps(s, child, b, q) ==> b < i && Maps(s, parent, b, q);
  }

  /** What sharing page i achieves, or leaves alone when no memory is left for a table page. */
  ghost predicate PageShared(s: Memory, s': Memory, parent: nat, child: nat, i: nat, ok: bool) {
    && IsRoot(s, parent) && IsRoot(s, child) && parent != child && HeldSame(s, s')
    && if ok then
         && Step(s, s', child, i, i + 1) && Shared(s', parent, child, i + 1)
         && Sees(s', child, i) == Sees(s, parent, i)
       else Step(s, s', child, 0, 0)
  }

  /** The parent's entry, now read-only if it was writable, is stored for the child and counted. */
  lemma ShareDone(s: Memory, a: Memory, g: Memory, parent: nat, child: nat, i: nat)
    requires VmInv(s) && IsRoot(s, parent) && IsRoot(s, child) && parent != child && i < TRAPFRAME_VPN
    requires Shared(s, parent, child, i) && Entry(s, parent, i).v
    requires Step(s, a, child, 0, 0) && Entry(a, parent, i) == Share(Entry(s, parent, i))
    requires AllocInv(g) && TreeInv(g) && Grown(a, g, child) && child in g.role && Leaf(g, child, i).Some?
    ensures var e := Share(Entry(s, parent, i));
            && e.ppn in g.role
            && var s' := MapShared(g, child, i, e);
               && Step(s, s', child, i, i + 1) && Shared(s', parent, child, i + 1)
               && Sees(s', child, i) == Sees(s, parent, i)
  {
    hide Linked, AllocInv, Entry, Leaf, LeavesOk, RefsOk, Injective;
    var e := Share(Entry(s, parent, i));
    GrownStep(a, g, child);
    StepTransitive(s, a, g, child, 0, 0);
    StepWiden(s, g, child, 0, 0, i, i);
    SharedFrame(s, g, parent, child, i);
    assert Alike(a, g, parent, i);
    assert Entry(g, parent, i) == e by { GrownEntry(a, g, parent, child, i); }
    NotYetShared(g, parent, child, i);
    LeafReadable(g, parent, i);
    assert Maps(g, parent, i, e.ppn);
    assert Entry(g, child, i) == ZERO_PTE;
    MapSharedStep(g, child, i, e, parent, i);
    var s' := MapShared(g, child, i, e);
    StepWiden(s, g, child, 0, 0, i, i + 1);
    StepTransitive(s, g, s', child, i, i + 1);
    SharedNext(g, s', parent, child, i);
    assert Alike(s, g, parent, i);
  }

  lemma GrownEntry(a: Memory, g: Memory, q: nat, r: nat, v: nat)
    requires Bounds(a) && Bounds(g) && Grown(a, g, r) && IsRoot(a, q) && v < MAX_VPN
    ensures q in g.role && Entry(g, q, v) == Entry(a, q, v)
  {
  }

  lemma SharedNext(g: Memory, s': Memory, parent: nat, child: nat, i: nat)
    requires Step(g, s', child, i, i + 1) && IsRoot(g, parent) && IsRoot(g, child) && parent != child
    requires i < TRAPFRAME_VPN
    requires Shared(g, parent, child, i) && Entry(g, parent, i).v
    requires Entry(s', child, i) == Entry(g, parent, i)
    ensures Shared(s', parent, child, i + 1)
  {
    hide Linked, AllocInv, Entry, Leaf, LeavesOk, RefsOk, Injective, Sees;
    RangeFrame(g, s', child, i, i + 1, 0, i);
    RangeFrame(g, s', child, i, i + 1, i + 1, TRAPFRAME_VPN);
    forall v | 0 <= v < i + 1
      ensures Entry(s', parent, v).v && Entry(s', child, v).ppn == Entry(s', parent, v).ppn
    {
      assert Alike(g, s', parent, v);
      if v < i { assert Alike(g, s', child, v); }
    }
  }

  lemma GrownHeld(a: Memory, g: Memory, r: nat)
    requires Bounds(a) && Bounds(g) && Grown(a, g, r)
    ensures HeldSame(a, g)
  {
    assert forall p :: p in g.role <==> p in a.role;
  }

  lemma ShareFailed(s: Memory, a: Memory, g: Memory, parent: nat, child: nat, i: nat)
    requires Step(s, a, child, 0, 0) && a.role == s.role && AllocInv(g) && TreeInv(g) && Grown(a, g, child)
    requires IsRoot(s, parent) && IsRoot(s, child) && parent != child
    ensures PageShared(s, g, parent, child, i, false)
  {
    hide Linked, AllocInv, Entry, Leaf, LeavesOk, RefsOk, Injective, Sees, SameOutside, Grown;
    GrownHeld(a, g, child);
    GrownStep(a, g, child);
    StepTransitive(s, a, g, child, 0, 0);
  }

  lemma SharedOutcome(s: Memory, a: Memory, g: Memory, parent: nat, child: nat, i: nat)
    requires Step(s, a, child, 0, 0) && a.role == s.role && Bounds(g) && Grown(a, g, child)
    requires IsRoot(s, parent) && IsRoot(s, child) && parent != child && child in g.role && Leaf(g, child, i).Some?
    requires var e := Share(Entry(s, parent, i));
             && e.ppn in g.role
             && var s' := MapShared(g, child, i, e);
                && Step(s, s', child, i, i + 1) && Shared(s', parent, child, i + 1)
                && Sees(s', child, i) == Sees(s, parent, i)
    ensures PageShared(s, MapShared(g, child, i, Share(Entry(s, parent, i))), parent, child, i, true)
  {
    hide Linked, AllocInv, Entry, Leaf, LeavesOk, RefsOk, Injective, Sees, SameOutside, Grown, Kept, Shared;
    GrownHeld(a, g, child);
  }

  /** There is no memory for the page-table pages that page i lacks. */
  ghost predicate NoTable(s: Memory, r: nat, i: nat) {
    forall lo: nat, hi: nat | lo <= i < hi :: Spare(s, r, lo, hi) < 0
  }

  lemma NoTableLeft(s: Memory, a: Memory, g: Memory, r: nat, i: nat)
    requires a.role == s.role && |a.freelist| == |s.freelist| && Charged(a, g, r, Path(i)) && i < MAX_VPN
    requires TreeInv(g) && IsRoot(g, r) && g.freelist == [] && Leaf(g, r, i).None?
    ensures NoTable(s, r, i)
  {
    hide Linked, Leaf, Charged, Path, PathsTo;
    WalkBalance(a, g, r, i);
    forall lo: nat, hi: nat | lo <= i < hi ensures Spare(s, r, lo, hi) < 0 {
      LeafLacking(g, r, i, lo, hi);
      assert Spare(a, r, lo, hi) == Spare(s, r, lo, hi);
    }
  }

  lemma SharedCharged(s: Memory, a: Memory, g: Memory, r: nat, i: nat, e: Pte)
    requires a.role == s.role && |a.freelist| == |s.freelist| && Charged(a, g, r, Path(i))
    requires Bounds(g) && r in g.role && Leaf(g, r, i).Some? && e.ppn in g.role
    ensures Charged(s, MapShared(g, r, i, e), r, Path(i))
  {
    hide Leaf, Path, Bounds;
    var s' := MapShared(g, r, i, e);
    SpotsSame(s, a, r, Path(i));
    SpotsSame(g, s', r, Path(i));
    ChargedTransitive(s, a, g, r, Path(i));
    ChargedTransitive(s, g, s', r, Path(i));
  }

  /** Shares page i: the loop body of uvmcopy. */
  method CopyPage(m: Machine, parent: nat, child: nat, i: nat) returns (ok: bool)
    requires VmInv(m.mem) && IsRoot(m.mem, parent) && IsRoot(m.mem, child) && parent != child && i < TRAPFRAME_VPN
    requires Shared(m.mem, parent, child, i) && Entry(m.mem, parent, i).v
    modifies m`mem
    ensures PageShared(old(m.mem), m.mem, parent, child, i, ok)
    ensures ok ==> Charged(old(m.mem), m.mem, child, Path(i))
    ensures !ok ==> NoTable(old(m.mem), child, i)
  {
    hide Linked, AllocInv, Entry, Leaf, LeavesOk, RefsOk, Injective, Sees, SameOutside, Grown, PageShared, Charged,
      Path, NoTable, Kept;
    ghost var s := m.mem;
    var flags := SharePage(m, parent, child, i);
    ghost var a := m.mem;
    RangeFrame(s, a, child, 0, 0, i, TRAPFRAME_VPN);
    assert Entry(a, child, i) == ZERO_PTE;
    ghost var g;
    ok, g := MapPage(m, child, i, flags.ppn, flags);
    if !ok {
      ShareFailed(s, a, g, parent, child, i);
      NoTableLeft(s, a, g, child, i);
    } else {
      ShareDone(s, a, g, parent, child, i);
      SharedOutcome(s, a, g, parent, child, i);
      SharedCharged(s, a, g, child, i, flags);
      var q := flags.ppn;
      m.mem := m.mem.(refcnt := m.mem.refcnt[q := m.mem.refcnt[q] + 1]);
      assert m.mem == MapShared(g, child, i, flags);
    }
  }

  /** Marks the parent's page copy-on-write if it is writable; returns its entry. */
  method SharePage(m: Machine, parent: nat, ghost child: nat, i: nat) returns (pte: Pte)
    requires VmInv(m.mem) && IsRoot(m.mem, parent) && i < TRAPFRAME_VPN && Entry(m.mem, parent, i).v
    modifies m`mem
    ensures pte == Share(old(Entry(m.mem, parent, i)))
    ensures Step(old(m.mem), m.mem, child, 0, 0) && Entry(m.mem, parent, i) == pte
    ensures m.mem.role == old(m.mem).role && m.mem.freelist == old(m.mem).freelist
  {
    hide Linked, AllocInv, Entry, Leaf, LeavesOk, RefsOk, Injective, Sees, SameOutside, Charged, Path;
    ghost var s := m.mem;
    EntryHasLeaf(s, parent, i);
    var slot := Walk(m, parent, i, false);
    var (t, j) := slot.value;
    pte := m.mem.ptes[t][j];
    if pte.w {
      ShareStep(s, parent, i, child);
      PutEffect(s, parent, i, Share(pte));
      pte := pte.(w := false, cow := true);
      m.mem := m.mem.(ptes := m.mem.ptes[t := m.mem.ptes[t][j := pte]]);
      assert m.mem == Put(s, parent, i, Share(Entry(s, parent, i)));
    } else {
      StepReflexive(s, child, 0, 0);
    }
  }

  ghost predicate SeesShared(s: Memory, s': Memory, parent: nat, child: nat, n: nat)
    requires Bounds(s) && Bounds(s') && parent in s.role && child in s'.role
  {
    forall v | 0 <= v < n :: Sees(s', child, v) == Sees(s, parent, v)
  }

  lemma SeesSharedNext(s: Memory, b: Memory, c: Memory, parent: nat, child: nat, i: nat)
    requires Step(s, b, child, 0, i) && Step(b, c, child, i, i + 1) && IsRoot(s, parent) && IsRoot(s, child)
    requires parent != child && i < TRAPFRAME_VPN && SeesShared(s, b, parent, child, i)
    requires Sees(c, child, i) == Sees(b, parent, i)
    ensures SeesShared(s, c, parent, child, i + 1)
  {
    hide Linked, AllocInv, Entry, Leaf, LeavesOk, RefsOk, Injective, Sees;
    assert Alike(s, b, parent, i);
    forall v | 0 <= v < i ensures Sees(c, child, v) == Sees(s, parent, v) {
      assert Alike(b, c, child, v);
    }
  }

  /**
    The child's memory becomes an exact copy of the parent's, and no process sees
    any other change.  A failure leaves the child without user pages and every
    process seeing what it saw before.
   */
  method Uvmcopy(m: Machine, parent: nat, child: nat, sz: nat) returns (ok: bool)
    requires VmInv(m.mem) && IsRoot(m.mem, parent) && IsRoot(m.mem, child) && parent != child
    requires PagesFor(sz) <= TRAPFRAME_VPN && Mapped(m.mem, parent, 0, PagesFor(sz))
    requires Cleared(m.mem, child, 0, TRAPFRAME_VPN)
    modifies m`mem
    ensures HeldSame(old(m.mem), m.mem)
    ensures ok <==> |old(m.mem).freelist| >= Lacking(old(m.mem), child, 0, PagesFor(sz))
    ensures !ok ==> Step(old(m.mem), m.mem, child, 0, 0)
    ensures ok ==>
              && Step(old(m.mem), m.mem, child, 0, PagesFor(sz)) && Shared(m.mem, parent, child, PagesFor(sz))
              && SeesShared(old(m.mem), m.mem, parent, child, PagesFor(sz))
  {
    hide Linked, AllocInv, Entry, Leaf, LeavesOk, RefsOk, Injective, Sees, SameOutside, Charged, Path, Lacking;
    ghost var s := m.mem;
    ghost var n := PagesFor(sz);
    StepReflexive(s, child, 0, 0);
    var i := 0;
    while i * PAGE_BYTES < sz
      invariant 0 <= i <= PagesFor(sz)
      invariant Step(s, m.mem, child, 0, i) && HeldSame(s, m.mem)
      invariant Shared(m.mem, parent, child, i) && SeesShared(s, m.mem, parent, child, i)
      invariant Spare(m.mem, child, 0, n) == Spare(s, child, 0, n)
      decreases PagesFor(sz) - i
    {
      ghost var b := m.mem;
      StillMapped(s, b, parent, child, i);
      ok := CopyPage(m, parent, child, i);
      if !ok {
        assert Spare(b, child, 0, n) < 0;
        StepWiden(b, m.mem, child, 0, 0, 0, i);
        StepTransitive(s, b, m.mem, child, 0, i);
        RangeFrame(b, m.mem, child, 0, 0, 0, i);
        ghost var c := m.mem;
        Uvmunmap(m, child, 0, i, true);
        StepTransitive(s, c, m.mem, child, 0, i);
        StepNarrow(s, m.mem, child, 0, i);
        return;
      }
      WalkBalance(b, m.mem, child, i);
      SeesSharedNext(s, b, m.mem, parent, child, i);
      StepWiden(b, m.mem, child, i, i + 1, 0, i + 1);
      StepWiden(s, b, child, 0, i, 0, i + 1);
      StepTransitive(s, b, m.mem, child, 0, i + 1);
      i := i + 1;
    }
    MappedLacking(m.mem, child, 0, n);
    ok := true;
  }

  lemma StillMapped(s: Memory, b: Memory, parent: nat, child: nat, i: nat)
    requires Step(s, b, child, 0, i) && IsRoot(s, parent) && parent != child && i < MAX_VPN && Entry(s, parent, i).v
    ensures IsRoot(b, parent) && Entry(b, parent, i).v
  {
    hide Linked, AllocInv, Entry, Leaf, LeavesOk, RefsOk, Injective, Sees;
    assert Alike(s, b, parent, i);
  }
}
