/** User memory: mapping, unmapping, growing, sharing and copying (kernel/vm.c). */
module Vm {
  import opened Prelude
  import opened Sv39
  import opened Kalloc
  import opened PageTable
  import opened Supply
  import opened PageWalk
  import opened Cow

  // ---------------------------------------------------------------------
  // What an operation on one tree leaves alone

  ghost predicate Loose(role: Role) {
    role.Free? || role.User? || role.Held?
  }

  /** No page is left in the hands of the operation that allocated it. */
  ghost predicate NoHeld(s: Memory) {
    forall p | p in s.role :: !s.role[p].Held?
  }

  /**
    Table, trapframe and kernel pages stay what they are.  Free, held and user pages
    may change into each other, or become table pages of the tree of r.
   */
  ghost predicate Kept(s: Memory, s': Memory, r: nat) {
    && s'.lo == s.lo && s'.hi == s.hi && s'.role.Keys == s.role.Keys
    && (forall q :: IsRoot(s', q) <==> IsRoot(s, q))
    && (forall p | p in s.role ::
          if Loose(s.role[p]) then Loose(s'.role[p])
            || (s'.role[p].Table? && s'.role[p].root == r && s'.role[p].level < 2)
          else s'.role[p] == s.role[p])
  }

  /** Equal up to copy-on-write marking, and looking the same to the process. */
  ghost predicate Alike(s: Memory, s': Memory, q: nat, v: nat)
    requires Bounds(s) && Bounds(s') && q in s.role && q in s'.role
  {
    if v < TRAPFRAME_VPN then Share(Entry(s', q, v)) == Share(Entry(s, q, v)) && Sees(s', q, v) == Sees(s, q, v)
    else Entry(s', q, v) == Entry(s, q, v)
  }

  /** Nothing changes outside pages lo..hi of the tree of r. */
  ghost predicate SameOutside(s: Memory, s': Memory, r: nat, lo: nat, hi: nat)
    requires Bounds(s) && Bounds(s') && s'.role.Keys == s.role.Keys
  {
    forall q, v: nat | IsRoot(s, q) && v < MAX_VPN && !(q == r && lo <= v < hi) :: Alike(s, s', q, v)
  }

  /** A legal step of the memory system that concerns pages lo..hi of the tree of r. */
  ghost predicate Step(s: Memory, s': Memory, r: nat, lo: nat, hi: nat) {
    VmInv(s) && VmInv(s') && Kept(s, s', r) && SameOutside(s, s', r, lo, hi)
  }

  lemma StepReflexive(s: Memory, r: nat, lo: nat, hi: nat)
    requires VmInv(s)
    ensures Step(s, s, r, lo, hi)
  {
    hide Linked, ListInv, LeavesOk, RefsOk, Injective, Entry, Leaf;
  }

  lemma KeptTransitive(a: Memory, b: Memory, c: Memory, r: nat)
    requires Kept(a, b, r) && Kept(b, c, r)
    ensures Kept(a, c, r)
  {
    assert forall p :: p in a.role <==> p in b.role;
  }

  lemma StepTransitive(a: Memory, b: Memory, c: Memory, r: nat, lo: nat, hi: nat)
    requires Step(a, b, r, lo, hi) && Step(b, c, r, lo, hi)
    ensures Step(a, c, r, lo, hi)
  {
    hide Linked, ListInv, LeavesOk, RefsOk, Injective, Entry, Leaf, AllocInv, Sees;
    KeptTransitive(a, b, c, r);
    forall q, v: nat | IsRoot(a, q) && v < MAX_VPN && !(q == r && lo <= v < hi) ensures Alike(a, c, q, v) {
      assert Alike(a, b, q, v) && Alike(b, c, q, v);
    }
  }

  lemma StepWiden(a: Memory, b: Memory, r: nat, lo: nat, hi: nat, lo': nat, hi': nat)
    requires Step(a, b, r, lo, hi) && (hi <= lo || (lo' <= lo && hi <= hi'))
    ensures Step(a, b, r, lo', hi')
  {
    hide Linked, ListInv, LeavesOk, RefsOk, Injective, Entry, Leaf, AllocInv, Sees;
  }

  /** Growing a tree by table pages is a step that changes no mapping. */
  lemma GrownStep(s: Memory, g: Memory, r: nat)
    requires VmInv(s) && AllocInv(g) && TreeInv(g) && Grown(s, g, r)
    ensures Step(s, g, r, 0, 0)
  {
    hide Linked, ListInv, Entry, Leaf;
    assert Quiet(s, g);
    QuietKeeps(s, g);
    hide LeavesOk, RefsOk, Injective;
  }

  lemma TakenStep(s: Memory, r: nat)
    requires VmInv(s) && s.freelist != []
    ensures Step(s, Taken(s, Held), r, 0, 0)
  {
    TakenQuiet(s);
    FirstFree(s);
    hide Linked, ListInv, Entry, Leaf, LeavesOk, RefsOk, Injective;
  }

  lemma FreedStep(s: Memory, q: nat, r: nat)
    requires VmInv(s) && q in s.role && s.role[q].Held?
    ensures Step(s, Freed(s, q), r, 0, 0)
  {
    hide Linked, ListInv, Entry, Leaf, LeavesOk, RefsOk, Injective;
    FreedQuiet(s, q);
  }

  lemma HeldWriteStep(s: Memory, q: nat, data: seq<byte>, words: seq<Pte>, r: nat)
    requires VmInv(s) && q in s.role && s.role[q].Held? && |data| == PAGE_BYTES && |words| == TABLE_SIZE
    ensures Step(s, s.(bytes := s.bytes[q := data], ptes := s.ptes[q := words]), r, 0, 0)
  {
    hide Linked, ListInv, Entry, Leaf, LeavesOk, RefsOk, Injective;
    HeldWriteQuiet(s, q, data, words);
  }

  lemma ShareStep(s: Memory, r: nat, v: nat, r': nat)
    requires VmInv(s) && IsRoot(s, r) && v < TRAPFRAME_VPN && Leaf(s, r, v).Some? && Entry(s, r, v).v
    ensures Step(s, Put(s, r, v, Share(Entry(s, r, v))), r', 0, 0)
  {
    hide Linked, ListInv, Entry, Leaf, LeavesOk, RefsOk, Injective;
    PutShare(s, r, v);
    PutEffect(s, r, v, Share(Entry(s, r, v)));
  }

  lemma MapSharedStep(s: Memory, r: nat, v: nat, e: Pte, r1: nat, v1: nat)
    requires VmInv(s) && IsRoot(s, r) && v < TRAPFRAME_VPN && Leaf(s, r, v).Some? && !Entry(s, r, v).v
    requires e.v && e.r && !e.w && Maps(s, r1, v1, e.ppn) && !Entry(s, r1, v1).w
    requires forall b :: !Maps(s, r, b, e.ppn)
    ensures e.ppn in s.role
    ensures var s' := MapShared(s, r, v, e);
            && Step(s, s', r, v, v + 1) && Entry(s', r, v) == e
            && Sees(s', r, v) == Some(PageView(s.bytes[e.ppn], e.r, e.w || e.cow, e.x, e.u))
  {
    hide Linked, ListInv, Entry, Leaf;
    assert LeafOk(s, r1, v1);
    MapSharedKeeps(s, r, v, e, r1, v1);
    MapSharedShape(s, r, v, e);
    MapSharedViews(s, r, v, e);
    hide LeavesOk, RefsOk, Injective;
  }

  lemma MapFreshStep(s: Memory, r: nat, v: nat, e: Pte)
    requires VmInv(s) && IsRoot(s, r) && v < TRAPFRAME_VPN && Leaf(s, r, v).Some? && !Entry(s, r, v).v
    requires e.v && e.r && !(e.w && e.cow) && e.ppn in s.role && s.role[e.ppn].Held?
    ensures var s' := MapFresh(s, r, v, e);
            && Step(s, s', r, v, v + 1) && Entry(s', r, v) == e
            && Sees(s', r, v) == Some(PageView(s.bytes[e.ppn], e.r, e.w || e.cow, e.x, e.u))
  {
    hide Linked, ListInv, Entry, Leaf, LeavesOk, RefsOk, Injective;
    MapFreshKeeps(s, r, v, e);
    MapFreshShape(s, r, v, e);
    MapFreshViews(s, r, v, e);
  }

  lemma UnmapStep(s: Memory, r: nat, v: nat)
    requires VmInv(s) && IsRoot(s, r) && v < TRAPFRAME_VPN && Leaf(s, r, v).Some? && Entry(s, r, v).v
    ensures Entry(s, r, v).ppn in s.role && s.role[Entry(s, r, v).ppn].User?
    ensures var s' := UnmapUser(s, r, v);
            Step(s, s', r, v, v + 1) && Entry(s', r, v) == ZERO_PTE && Leaf(s', r, v) == Leaf(s, r, v)
  {
    hide Linked, ListInv, Entry, Leaf, LeavesOk, RefsOk, Injective;
    UnmapUserKeeps(s, r, v);
    UnmapUserShape(s, r, v);
    UnmapUserViews(s, r, v);
  }

  lemma HighStep(s: Memory, r: nat, v: nat, e: Pte)
    requires VmInv(s) && IsRoot(s, r) && TRAPFRAME_VPN <= v < MAX_VPN && Leaf(s, r, v).Some?
    requires if e.v then e.r && !(e.w && e.cow) else e == ZERO_PTE
    ensures var s' := Put(s, r, v, e); Step(s, s', r, v, v + 1) && Entry(s', r, v) == e
  {
    hide Linked, ListInv, Entry, Leaf, LeavesOk, RefsOk, Injective;
    PutHigh(s, r, v, e);
  }

  // ---------------------------------------------------------------------
  // Operations

  ghost predicate Cleared(s: Memory, r: nat, lo: nat, hi: nat)
    requires Bounds(s) && r in s.role
  {
    forall v | lo <= v < hi :: Entry(s, r, v) == ZERO_PTE
  }

  ghost predicate Mapped(s: Memory, r: nat, lo: nat, hi: nat)
    requires Bounds(s) && r in s.role
  {
    forall v | lo <= v < hi :: Entry(s, r, v).v
  }

  /** The operation leaves no page in hand, and does not touch one that a caller holds. */
  ghost predicate HeldSame(s: Memory, s': Memory) {
    s'.role.Keys == s.role.Keys && forall p | p in s.role :: s'.role[p].Held? <==> s.role[p].Held?
  }

  /** Pages outside the range of a step stay cleared, and stay mapped. */
  lemma RangeFrame(s: Memory, s': Memory, r: nat, lo: nat, hi: nat, x: nat, y: nat)
    requires Step(s, s', r, lo, hi) && IsRoot(s, r) && y <= MAX_VPN && (y <= lo || hi <= x)
    ensures Cleared(s, r, x, y) ==> Cleared(s', r, x, y)
    ensures Mapped(s, r, x, y) ==> Mapped(s', r, x, y)
  {
    hide Linked, ListInv, Entry, Leaf, LeavesOk, RefsOk, Injective, AllocInv, Sees;
    forall v | x <= v < y
      ensures Entry(s, r, v) == ZERO_PTE ==> Entry(s', r, v) == ZERO_PTE
      ensures Entry(s, r, v).v ==> Entry(s', r, v).v
    {
      assert Alike(s, s', r, v);
    }
  }

  lemma EntryHasLeaf(s: Memory, r: nat, v: nat)
    requires Bounds(s) && r in s.role
    ensures Entry(s, r, v).v ==> Leaf(s, r, v).Some?
    ensures Leaf(s, r, v).Some? ==> Entry(s, r, v) == s.ptes[Leaf(s, r, v).value][Px(0, v)]
  {
  }

  lemma LeafReadable(s: Memory, r: nat, v: nat)
    requires VmInv(s) && IsRoot(s, r) && v < MAX_VPN && Entry(s, r, v).v
    ensures Entry(s, r, v).r
    ensures v < TRAPFRAME_VPN ==> Entry(s, r, v).ppn in s.role && s.role[Entry(s, r, v).ppn].User?
  {
    assert LeafOk(s, r, v);
  }

  /** Removes one mapping: the loop body of uvmunmap. */
  method UnmapPage(m: Machine, r: nat, vpn: nat, doFree: bool)
    requires VmInv(m.mem) && IsRoot(m.mem, r) && vpn < MAX_VPN && Entry(m.mem, r, vpn).v
    requires doFree <==> vpn < TRAPFRAME_VPN
    modifies m`mem
    ensures Step(old(m.mem), m.mem, r, vpn, vpn + 1) && HeldSame(old(m.mem), m.mem)
    ensures Entry(m.mem, r, vpn) == ZERO_PTE
    ensures old(Leaf(m.mem, r, vpn)).Some? && Leaf(m.mem, r, vpn).Some?
    ensures doFree ==> old(Entry(m.mem, r, vpn)).ppn in old(m.mem).role && m.mem == UnmapUser(old(m.mem), r, vpn)
  {
    hide Linked, ListInv, Entry, Leaf, LeavesOk, RefsOk, Injective, SameMaps, OwnedKept;
    ghost var s := m.mem;
    EntryHasLeaf(s, r, vpn);
    var slot := Walk(m, r, vpn, false);
    var (t, i) := slot.value;
    var pte := m.mem.ptes[t][i];
    LeafReadable(s, r, vpn);
    assert pte.v && pte.r;   // uvmunmap's three panics are unreachable
    if doFree {
      UnmapStep(s, r, vpn);
      m.Kfree(pte.ppn);
      m.mem := m.mem.(ptes := m.mem.ptes[t := m.mem.ptes[t][i := ZERO_PTE]]);
      assert m.mem == UnmapUser(s, r, vpn);
    } else {
      HighStep(s, r, vpn, ZERO_PTE);
      PutEffect(s, r, vpn, ZERO_PTE);
      m.mem := m.mem.(ptes := m.mem.ptes[t := m.mem.ptes[t][i := ZERO_PTE]]);
      assert m.mem == Put(s, r, vpn, ZERO_PTE);
    }
  }

  /** Removes npages mappings starting at vpn, with their references when doFree is set. */
  method Uvmunmap(m: Machine, r: nat, vpn: nat, npages: nat, doFree: bool)
    requires VmInv(m.mem) && IsRoot(m.mem, r) && vpn + npages <= MAX_VPN && Mapped(m.mem, r, vpn, vpn + npages)
    requires if doFree then vpn + npages <= TRAPFRAME_VPN else TRAPFRAME_VPN <= vpn
    modifies m`mem
    ensures Step(old(m.mem), m.mem, r, vpn, vpn + npages) && HeldSame(old(m.mem), m.mem)
    ensures Cleared(m.mem, r, vpn, vpn + npages)
  {
    hide Linked, Entry, Leaf, LeavesOk, RefsOk, Injective, AllocInv, Sees, SameOutside, UnmapUser;
    ghost var s := m.mem;
    StepReflexive(s, r, vpn, vpn + npages);
    var a := vpn;
    while a < vpn + npages
      invariant vpn <= a <= vpn + npages
      invariant Step(s, m.mem, r, vpn, vpn + npages) && HeldSame(s, m.mem)
      invariant Cleared(m.mem, r, vpn, a) && Mapped(m.mem, r, a, vpn + npages)
    {
      ghost var b := m.mem;
      assert Entry(b, r, a).v;
      UnmapPage(m, r, a, doFree);
      RangeFrame(b, m.mem, r, a, a + 1, vpn, a);
      RangeFrame(b, m.mem, r, a, a + 1, a + 1, vpn + npages);
      StepWiden(b, m.mem, r, a, a + 1, vpn, vpn + npages);
      StepTransitive(s, b, m.mem, r, vpn, vpn + npages);
      a := a + 1;
    }
  }

  // ---------------------------------------------------------------------
  // Growing and shrinking

  /** The physical pages behind the first n user pages. */
  ghost function Frames(s: Memory, r: nat, n: nat): set<nat>
    requires Bounds(s) && r in s.role
  {
    if n == 0 then {} else Frames(s, r, n - 1) + {Entry(s, r, n - 1).ppn}
  }

  lemma {:induction false} FramesSize(s: Memory, r: nat, n: nat)
    requires VmInv(s) && IsRoot(s, r) && n <= TRAPFRAME_VPN && Mapped(s, r, 0, n)
    ensures |Frames(s, r, n)| == n
    ensures forall q | q in Frames(s, r, n) :: q in s.role && s.role[q].User? && exists v ::
              0 <= v < n && Maps(s, r, v, q)
  {
    hide Linked, ListInv, Entry, Leaf, RefsOk, AllocInv;
    if n > 0 {
      FramesSize(s, r, n - 1);
      LeafReadable(s, r, n - 1);
      assert Maps(s, r, n - 1, Entry(s, r, n - 1).ppn);
      assert Entry(s, r, n - 1).ppn !in Frames(s, r, n - 1);
    }
  }

  /** A process maps fewer pages than there is memory, so it never reaches the trapframe. */
  lemma MappedBound(s: Memory, r: nat, n: nat, spare: nat)
    requires VmInv(s) && IsRoot(s, r) && n <= TRAPFRAME_VPN && Mapped(s, r, 0, n)
    requires spare in s.role && !s.role[spare].User?
    ensures n < 0x8000
  {
    FramesSize(s, r, n);
    hide Linked, ListInv, Entry, Leaf, RefsOk, LeavesOk, Injective;
    var all := Range(s.lo, s.hi);
    assert Frames(s, r, n) < all;
    StrictSubsetSize(Frames(s, r, n), all);
  }

  lemma StrictSubsetSize(a: set<nat>, b: set<nat>)
    requires a < b
    ensures |a| < |b|
  {
    var x :| x in b && x !in a;
    assert b == a + (b - a);
    assert |b - a| > 0;
  }

  /** The chain of small steps behind one fresh zeroed page, up to the mapping. */
  lemma FreshChain(s: Memory, g: Memory, r: nat, v: nat)
    requires VmInv(s) && IsRoot(s, r) && v < TRAPFRAME_VPN && s.freelist != [] && !Entry(s, r, v).v
    requires AllocInv(g) && TreeInv(g)
    requires Bounds(Zeroed(s, Held)) && Grown(Zeroed(s, Held), g, r)
    ensures s.freelist[0] in g.role && g.role[s.freelist[0]].Held? && g.bytes[s.freelist[0]] == Filled(0)
    ensures Step(s, g, r, 0, 0) && !Entry(g, r, v).v && IsRoot(g, r) && g.role.Keys == s.role.Keys
    ensures forall p | p in s.role && p != s.freelist[0] :: g.role[p].Held? <==> s.role[p].Held?
  {
    hide Linked, ListInv, Entry, Leaf, LeavesOk, RefsOk, Injective, SameMaps, Sees;
    var c := s.freelist[0];
    FirstFree(s);
    TakenStep(s, r);
    var t := Taken(s, Held);
    HeldWriteStep(t, c, Filled(0), FilledTable(0), r);
    var z := Zeroed(s, Held);
    StepTransitive(s, t, z, r, 0, 0);
    GrownStep(z, g, r);
    StepTransitive(s, z, g, r, 0, 0);
    assert Alike(s, g, r, v);
  }

  /** A zeroed page in hand for user page a: kalloc and memset. */
  method TakeZeroed(m: Machine, r: nat, a: nat) returns (p: nat)
    requires VmInv(m.mem) && IsRoot(m.mem, r) && a <= TRAPFRAME_VPN && Mapped(m.mem, r, 0, a)
    requires Cleared(m.mem, r, a, TRAPFRAME_VPN)
    modifies m`mem
    ensures p == 0 ==> old(m.mem).freelist == [] && Step(old(m.mem), m.mem, r, 0, 0) && HeldSame(old(m.mem), m.mem)
    ensures p != 0 ==>
              && old(m.mem).freelist != [] && p == old(m.mem).freelist[0] && m.mem == Zeroed(old(m.mem), Held)
              && a < TRAPFRAME_VPN && VmInv(m.mem) && IsRoot(m.mem, r)
              && !Entry(old(m.mem), r, a).v && !Entry(m.mem, r, a).v
  {
    hide Linked, ListInv, Entry, Leaf, LeavesOk, RefsOk, Injective, SameMaps, OwnedKept, Sees, SameOutside;
    ghost var s := m.mem;
    p := m.Kalloc(Held);
    if p == 0 {
      NullStep(s, r);
      return;
    }
    FirstFree(s);
    TakenStep(s, r);
    RangeFrame(s, m.mem, r, 0, 0, 0, a);
    MappedBound(m.mem, r, a, p);
    ghost var t := m.mem;
    HeldWriteStep(t, p, Filled(0), FilledTable(0), r);
    m.Memset(p, 0);
    RangeFrame(t, m.mem, r, 0, 0, a, a + 1);
    RangeFrame(s, t, r, 0, 0, a, a + 1);
    assert Entry(m.mem, r, a) == ZERO_PTE;
  }

  /** The fresh page goes back when it cannot be mapped. */
  lemma GrowUndone(s: Memory, g: Memory, r: nat, v: nat)
    requires VmInv(s) && IsRoot(s, r) && v < TRAPFRAME_VPN && s.freelist != [] && !Entry(s, r, v).v
    requires AllocInv(g) && TreeInv(g) && Bounds(Zeroed(s, Held)) && Grown(Zeroed(s, Held), g, r)
    ensures s.freelist[0] in g.role && g.role[s.freelist[0]].Held? && ListInv(g)
    ensures Step(s, Freed(g, s.freelist[0]), r, 0, 0) && HeldSame(s, Freed(g, s.freelist[0]))
  {
    hide Linked, Entry, Leaf, LeavesOk, RefsOk, Injective, SameMaps, OwnedKept, Sees, SameOutside, ListInv;
    FirstFree(s);
    FreshChain(s, g, r, v);
    FreedStep(g, s.freelist[0], r);
    StepTransitive(s, g, Freed(g, s.freelist[0]), r, 0, 0);
    HeldFree(g, s.freelist[0]);
  }

  lemma GrowDone(s: Memory, g: Memory, r: nat, v: nat, perm: Pte)
    requires VmInv(s) && IsRoot(s, r) && v < TRAPFRAME_VPN && s.freelist != [] && !Entry(s, r, v).v
    requires AllocInv(g) && TreeInv(g) && Bounds(Zeroed(s, Held)) && Grown(Zeroed(s, Held), g, r)
    requires r in g.role && Leaf(g, r, v).Some? && perm.r && !(perm.w && perm.cow)
    ensures s.freelist[0] in g.role && g.role[s.freelist[0]].Held?
    ensures var s' := MapFresh(g, r, v, perm.(v := true, ppn := s.freelist[0]));
            && Step(s, s', r, v, v + 1) && HeldSame(s, s')
            && Entry(s', r, v) == perm.(v := true, ppn := s.freelist[0])
            && Sees(s', r, v) == Some(PageView(Filled(0), true, perm.w || perm.cow, perm.x, perm.u))
  {
    hide Linked, AllocInv, Entry, Leaf, LeavesOk, RefsOk, Injective, SameMaps, OwnedKept, Sees, SameOutside, HeldSame,
      Kept;
    var e := perm.(v := true, ppn := s.freelist[0]);
    FirstFree(s);
    FreshChain(s, g, r, v);
    MapFreshStep(g, r, v, e);
    StepWiden(s, g, r, 0, 0, v, v + 1);
    StepTransitive(s, g, MapFresh(g, r, v, e), r, v, v + 1);
    GrowHeld(s, g, r, v, e);
  }

  lemma GrowHeld(s: Memory, g: Memory, r: nat, v: nat, e: Pte)
    requires Bounds(g) && r in g.role && Leaf(g, r, v).Some? && s.freelist != [] && e.ppn == s.freelist[0]
    requires g.role.Keys == s.role.Keys
    requires e.ppn in s.role && s.role[e.ppn].Free? && forall p | p in s.role
               && p != e.ppn :: g.role[p].Held? <==> s.role[p].Held?
    ensures HeldSame(s, MapFresh(g, r, v, e))
  {
    hide Leaf;
  }

  // ---------------------------------------------------------------------
  // What growth costs

  /** The free pages beyond what the tree lacks for pages lo..hi. */
  ghost function Spare(s: Memory, r: nat, lo: nat, hi: nat): int { |s.freelist| - Lacking(s, r, lo, hi) }

  /** There is no memory for page a and the page-table pages that it lacks. */
  ghost predicate NoPage(s: Memory, r: nat, a: nat) {
    forall lo: nat, hi: nat | lo <= a < hi :: Spare(s, r, lo, hi) <= 0
  }

  /** One page was taken beside the page-table pages that were lacking. */
  ghost predicate PageCharged(s: Memory, s': Memory, r: nat, a: nat) {
    forall lo: nat, hi: nat | lo <= a < hi :: Spare(s', r, lo, hi) == Spare(s, r, lo, hi) - 1
  }

  lemma NoPageEmpty(s: Memory, r: nat, a: nat)
    requires s.freelist == []
    ensures NoPage(s, r, a)
  {
  }

  /** Taking a page for another use leaves the trees alone. */
  lemma TakenSpots(s: Memory, r: nat, role: Role)
    requires AllocInv(s) && s.freelist != [] && !role.Table?
    ensures Spots(Zeroed(s, role), r) == Spots(s, r) && |Zeroed(s, role).freelist| == |s.freelist| - 1
  {
    hide ListInv;
    FirstFree(s);
    SpotsKept(s, Zeroed(s, role), r);
  }

  lemma SpotsKept(s: Memory, s': Memory, r: nat)
    requires s'.role.Keys == s.role.Keys
    requires forall p | p in s.role && (s.role[p].Table? || s'.role[p].Table?) :: s'.role[p] == s.role[p]
    ensures Spots(s', r) == Spots(s, r)
  {
    forall x | x in Spots(s, r) ensures x in Spots(s', r) {
      var t :| t in s.role && s.role[t].Table? && s.role[t].root == r && Spot(s.role[t].level, s.role[t].prefix) == x;
      assert t in s'.role;
    }
    forall x | x in Spots(s', r) ensures x in Spots(s, r) {
      var t :| t in s'.role && s'.role[t].Table? && s'.role[t].root == r
        && Spot(s'.role[t].level, s'.role[t].prefix) == x;
      assert t in s.role;
    }
  }

  /** The balance after a walk, for every range that contains the page. */
  lemma WalkBalance(s: Memory, g: Memory, r: nat, a: nat)
    requires Charged(s, g, r, Path(a))
    ensures forall lo: nat, hi: nat | lo <= a < hi :: Spare(g, r, lo, hi) == Spare(s, r, lo, hi)
  {
    hide Charged, Spots, Lacking, PathsTo, Path;
    forall lo: nat, hi: nat | lo <= a < hi ensures Spare(g, r, lo, hi) == Spare(s, r, lo, hi) {
      PathWithin(a, lo, hi);
      ChargedWiden(s, g, r, Path(a), PathsTo(lo, hi));
      ChargedLacking(s, g, r, lo, hi);
    }
  }

  lemma NoPageTable(s: Memory, g: Memory, r: nat, a: nat)
    requires AllocInv(s) && s.freelist != [] && a < MAX_VPN && Charged(Zeroed(s, Held), g, r, Path(a))
    requires TreeInv(g) && IsRoot(g, r) && g.freelist == [] && Leaf(g, r, a).None?
    ensures NoPage(s, r, a)
  {
    hide Linked, AllocInv, Leaf, Charged, Spots, PathsTo, Path;
    TakenSpots(s, r, Held);
    WalkBalance(Zeroed(s, Held), g, r, a);
    forall lo: nat, hi: nat | lo <= a < hi ensures Spare(s, r, lo, hi) <= 0 {
      LeafLacking(g, r, a, lo, hi);
      assert Spare(Zeroed(s, Held), r, lo, hi) == Spare(s, r, lo, hi) - 1;
    }
  }

  lemma GrowCharged(s: Memory, g: Memory, r: nat, a: nat, perm: Pte)
    requires AllocInv(s) && s.freelist != [] && a < MAX_VPN && Charged(Zeroed(s, Held), g, r, Path(a))
    requires Bounds(g) && r in g.role && Leaf(g, r, a).Some? && s.freelist[0] in g.role && g.role[s.freelist[0]].Held?
    ensures PageCharged(s, MapFresh(g, r, a, perm.(v := true, ppn := s.freelist[0])), r, a)
  {
    hide Linked, AllocInv, Leaf, Charged, Spots, PathsTo, Path;
    var s' := MapFresh(g, r, a, perm.(v := true, ppn := s.freelist[0]));
    TakenSpots(s, r, Held);
    WalkBalance(Zeroed(s, Held), g, r, a);
    SpotsKept(g, s', r);
    forall lo: nat, hi: nat | lo <= a < hi ensures Spare(s', r, lo, hi) == Spare(s, r, lo, hi) - 1 {
      assert Spare(Zeroed(s, Held), r, lo, hi) == Spare(s, r, lo, hi) - 1;
      assert Spare(s', r, lo, hi) == Spare(g, r, lo, hi);
    }
  }

  /** One page of growth: the loop body of uvmalloc. */
  method GrowPage(m: Machine, r: nat, a: nat, perm: Pte) returns (ok: bool)
    requires VmInv(m.mem) && IsRoot(m.mem, r) && a <= TRAPFRAME_VPN && Mapped(m.mem, r, 0, a)
    requires Cleared(m.mem, r, a, TRAPFRAME_VPN) && perm.r && !(perm.w && perm.cow)
    modifies m`mem
    ensures HeldSame(old(m.mem), m.mem)
    ensures !ok ==> Step(old(m.mem), m.mem, r, 0, 0) && NoPage(old(m.mem), r, a)
    ensures ok ==>
              && a < TRAPFRAME_VPN && Step(old(m.mem), m.mem, r, a, a + 1) && Entry(m.mem, r, a).v
              && PageCharged(old(m.mem), m.mem, r, a)
              && Entry(m.mem, r, a) == perm.(v := true, ppn := Entry(m.mem, r, a).ppn)
              && Sees(m.mem, r, a) == Some(PageView(Filled(0), true, perm.w || perm.cow, perm.x, perm.u))
  {
    hide Linked, AllocInv, Entry, Leaf, LeavesOk, RefsOk, Injective, Grown, Sees, SameOutside, Kept, Charged, Path,
      NoPage, PageCharged,
      HeldSame;
    ghost var s := m.mem;
    var mem := TakeZeroed(m, r, a);
    if mem == 0 {
      NoPageEmpty(s, r, a);
      return false;
    }
    ghost var g;
    ok, g := MapPage(m, r, a, mem, perm);
    if !ok {
      NoPageTable(s, g, r, a);
      GrowUndone(s, g, r, a);
      m.Kfree(mem);
    } else {
      GrowDone(s, g, r, a, perm);
      GrowCharged(s, g, r, a, perm);
      m.mem := m.mem.(role := m.mem.role[mem := User]);
      assert m.mem == MapFresh(g, r, a, perm.(v := true, ppn := mem));
    }
  }

  lemma HeldFree(s: Memory, p: nat)
    requires AllocInv(s) && p in s.role && s.role[p].Held?
    ensures ListInv(s) && Freed(s, p).role == s.role[p := Free]
  {
  }

  lemma NullStep(s: Memory, r: nat)
    requires VmInv(s)
    ensures Step(s, s.(refcnt := s.refcnt[0 := 1]), r, 0, 0)
  {
    var s' := s.(refcnt := s.refcnt[0 := 1]);
    assert AllocInv(s');
    NullCount(s, r);
    GrownStep(s, s', r);
  }

  /** Pages lo..hi look freshly allocated. */
  ghost predicate FreshPages(s: Memory, r: nat, lo: nat, hi: nat, perm: Pte)
    requires Bounds(s) && r in s.role
  {
    forall v | lo <= v < hi :: Sees(s, r, v) == Some(PageView(Filled(0), true, perm.w || perm.cow, perm.x, perm.u))
  }

  lemma FreshFrame(s: Memory, s': Memory, r: nat, lo: nat, hi: nat, x: nat, y: nat, perm: Pte)
    requires Step(s, s', r, lo, hi) && IsRoot(s, r) && y <= TRAPFRAME_VPN && (y <= lo || hi <= x)
    requires FreshPages(s, r, x, y, perm)
    ensures FreshPages(s', r, x, y, perm)
  {
    hide Linked, AllocInv, Entry, Leaf, LeavesOk, RefsOk, Injective, Sees;
    forall v | x <= v < y ensures Sees(s', r, v)
      == Some(PageView(Filled(0), true, perm.w || perm.cow, perm.x, perm.u)) {
      assert Alike(s, s', r, v);
    }
  }

  /** Pages that are unmapped before and after were not affected. */
  lemma StepNarrow(s: Memory, s': Memory, r: nat, lo: nat, hi: nat)
    requires Step(s, s', r, lo, hi) && IsRoot(s, r) && Cleared(s, r, lo, hi) && Cleared(s', r, lo, hi)
    ensures Step(s, s', r, 0, 0)
  {
    hide Linked, AllocInv, Entry, Leaf, LeavesOk, RefsOk, Injective;
    forall q, v: nat | IsRoot(s, q) && v < MAX_VPN ensures Alike(s, s', q, v) {
      if q == r && lo <= v < hi {
        assert Entry(s, q, v) == ZERO_PTE == Entry(s', q, v);
      }
    }
  }

  /** Shrinks user memory; page counts come from rounding both sizes up. */
  method Uvmdealloc(m: Machine, r: nat, oldsz: nat, newsz: nat) returns (sz: nat)
    requires VmInv(m.mem) && IsRoot(m.mem, r) && PagesFor(oldsz) <= TRAPFRAME_VPN
    requires Mapped(m.mem, r, PagesFor(newsz), PagesFor(oldsz))
    modifies m`mem
    ensures sz == if newsz >= oldsz then oldsz else newsz
    ensures newsz >= oldsz ==> m.mem == old(m.mem)
    ensures newsz < oldsz ==>
              && Step(old(m.mem), m.mem, r, PagesFor(newsz), PagesFor(oldsz)) && HeldSame(old(m.mem), m.mem)
              && Cleared(m.mem, r, PagesFor(newsz), PagesFor(oldsz))
  {
    hide Linked, AllocInv, Entry, Leaf, LeavesOk, RefsOk, Injective, Sees, SameOutside, Kept;
    if newsz >= oldsz {
      return oldsz;
    }
    if PagesFor(newsz) < PagesFor(oldsz) {
      var npages := PagesFor(oldsz) - PagesFor(newsz);
      Uvmunmap(m, r, PagesFor(newsz), npages, true);
    } else {
      StepReflexive(m.mem, r, PagesFor(newsz), PagesFor(oldsz));
    }
    return newsz;
  }

  /** Enough pages are free for pages lo..hi and the page-table pages that these lack. */
  ghost predicate CanGrow(s: Memory, r: nat, lo: nat, hi: nat) {
    |s.freelist| >= hi - lo + Lacking(s, r, lo, hi)
  }

  /**
    Grows user memory with zeroed pages, exactly if there is enough memory, or undoes
    everything: after a failure the mappings are as before, and every page taken is free
    again or a table page of r.
   */
  method Uvmalloc(m: Machine, r: nat, oldsz: nat, newsz: nat, perm: Pte) returns (sz: nat)
    requires VmInv(m.mem) && IsRoot(m.mem, r) && PagesFor(oldsz) <= TRAPFRAME_VPN && perm.r && !(perm.w && perm.cow)
    requires Mapped(m.mem, r, 0, PagesFor(oldsz)) && Cleared(m.mem, r, PagesFor(oldsz), TRAPFRAME_VPN)
    modifies m`mem
    ensures newsz < oldsz ==> sz == oldsz && m.mem == old(m.mem)
    ensures newsz >= oldsz ==> (sz == newsz <==> CanGrow(old(m.mem), r, PagesFor(oldsz), PagesFor(newsz)))
    ensures newsz >= oldsz ==>
              && HeldSame(old(m.mem), m.mem)
              && (sz != newsz ==> sz == 0 && Step(old(m.mem), m.mem, r, 0, 0))
              && (sz == newsz ==>
                    && PagesFor(newsz) <= TRAPFRAME_VPN
                    && Step(old(m.mem), m.mem, r, PagesFor(oldsz), PagesFor(newsz))
                    && FreshPages(m.mem, r, PagesFor(oldsz), PagesFor(newsz), perm)
                    && Mapped(m.mem, r, 0, PagesFor(newsz))
                    && Cleared(m.mem, r, PagesFor(newsz), TRAPFRAME_VPN))
  {
    hide Linked, AllocInv, Entry, Leaf, LeavesOk, RefsOk, Injective, Sees, SameOutside, Lacking;
    if newsz < oldsz {
      return oldsz;
    }
    ghost var s := m.mem;
    ghost var end := PagesFor(newsz);
    var first := PagesFor(oldsz);
    var a := first;
    StepReflexive(s, r, first, a);
    while a * PAGE_BYTES < newsz
      invariant first <= a <= TRAPFRAME_VPN && a <= PagesFor(newsz)
      invariant Step(s, m.mem, r, first, a) && HeldSame(s, m.mem)
      invariant FreshPages(m.mem, r, first, a, perm)
      invariant Mapped(m.mem, r, 0, a) && Cleared(m.mem, r, a, TRAPFRAME_VPN)
      invariant Spare(m.mem, r, first, end) == Spare(s, r, first, end) - (a - first)
      decreases PagesFor(newsz) - a
    {
      ghost var b := m.mem;
      var ok := GrowPage(m, r, a, perm);
      if !ok {
        assert Spare(b, r, first, end) <= 0;
        RangeFrame(b, m.mem, r, 0, 0, 0, a);
        ghost var c := m.mem;
        StepWiden(b, c, r, 0, 0, first, a);
        StepTransitive(s, b, c, r, first, a);
        UndoGrowth(m, r, first, a, s);
        return 0;
      }
      RangeFrame(b, m.mem, r, a, a + 1, 0, a);
      RangeFrame(b, m.mem, r, a, a + 1, a + 1, TRAPFRAME_VPN);
      FreshFrame(b, m.mem, r, a, a + 1, first, a, perm);
      StepWiden(b, m.mem, r, a, a + 1, first, a + 1);
      StepWiden(s, b, r, first, a, first, a + 1);
      StepTransitive(s, b, m.mem, r, first, a + 1);
      assert Spare(m.mem, r, first, end) == Spare(b, r, first, end) - 1;
      a := a + 1;
    }
    MappedLacking(m.mem, r, first, end);
    return newsz;
  }

  lemma MappedLacking(s: Memory, r: nat, lo: nat, hi: nat)
    requires VmInv(s) && IsRoot(s, r) && hi <= TRAPFRAME_VPN && Mapped(s, r, 0, hi)
    ensures Lacking(s, r, lo, hi) == 0
  {
    hide Linked, AllocInv, Entry, Leaf, LeavesOk, RefsOk, Injective, Lacking;
    forall v: nat | lo <= v < hi ensures Leaf(s, r, v).Some? {
      EntryHasLeaf(s, r, v);
    }
    NothingLacking(s, r, lo, hi);
  }

  /** uvmalloc's recovery: uvmdealloc from the failing page back to the old size. */
  method UndoGrowth(m: Machine, r: nat, first: nat, a: nat, ghost s: Memory)
    requires Step(s, m.mem, r, first, a) && HeldSame(s, m.mem) && IsRoot(s, r) && first <= a <= TRAPFRAME_VPN
    requires Mapped(m.mem, r, first, a) && Cleared(s, r, first, a)
    modifies m`mem
    ensures Step(s, m.mem, r, 0, 0) && HeldSame(s, m.mem)
  {
    hide Linked, AllocInv, Entry, Leaf, LeavesOk, RefsOk, Injective, Sees, SameOutside;
    ghost var b := m.mem;
    var sz := Uvmdealloc(m, r, a * PAGE_BYTES, first * PAGE_BYTES);
    if first < a {
      StepTransitive(s, b, m.mem, r, first, a);
    }
    StepNarrow(s, m.mem, r, first, a);
  }
}
