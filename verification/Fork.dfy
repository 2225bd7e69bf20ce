/**
  Processes and their memory: fork, exit, sbrk, user stores and kernel copies
  (kernel/proc.c).  The invariant holds after every operation, and what the
  processes see is what they would see if fork copied every page.
 */
module Fork {
  import opened Prelude
  import opened Sv39
  import opened Kalloc
  import opened PageTable
  import opened Supply
  import opened PageWalk
  import opened Cow
  import opened Vm
  import opened VmCopy
  import opened TreeLife
  import opened ProcTree
  import opened UserMem

  const NPROC: nat := 64

  /** A process owns a tree that maps exactly its size, and a trapframe page. */
  ghost predicate ProcOk(s: Memory, pr: Proc, tramp: nat) {
    && Bounds(s) && IsRoot(s, pr.root) && PagesFor(pr.sz) <= TRAPFRAME_VPN
    && Mapped(s, pr.root, 0, PagesFor(pr.sz)) && Cleared(s, pr.root, PagesFor(pr.sz), TRAPFRAME_VPN)
    && Entry(s, pr.root, TRAPFRAME_VPN) == TrapframePte(pr.trapframe)
    && Entry(s, pr.root, TRAMPOLINE_VPN) == TrampolinePte(tramp)
    && pr.trapframe in s.role && s.role[pr.trapframe] == Trapframe(pr.root)
  }

  /** Every tree and every trapframe page belongs to exactly one process in the table. */
  ghost predicate ProcInv(s: Memory, procs: map<nat, Proc>, tramp: nat) {
    && VmInv(s) && NoHeld(s)
    && (forall p | p in procs :: p < NPROC && ProcOk(s, procs[p], tramp))
    && (forall p, q | p in procs && q in procs && procs[p].root == procs[q].root :: p == q)
    && (forall r :: IsRoot(s, r) ==> exists p :: p in procs && procs[p].root == r)
    && (forall t | t in s.role && s.role[t].Trapframe? ::
          exists p :: p in procs && procs[p].trapframe == t && procs[p].root == s.role[t].owner)
  }

  /** What a process sees: its size and its pages. */
  datatype Space = Space(sz: nat, pages: map<nat, PageView>)

  ghost function SpaceOf(s: Memory, pr: Proc): Space
    requires Bounds(s) && pr.root in s.role
  {
    Space(pr.sz, map v: nat | v < PagesFor(pr.sz) && Sees(s, pr.root, v).Some? :: Sees(s, pr.root, v).value)
  }

  /** What all processes see. */
  ghost function View(s: Memory, procs: map<nat, Proc>, tramp: nat): map<nat, Space>
    requires ProcInv(s, procs, tramp)
  {
    map p | p in procs :: SpaceOf(s, procs[p])
  }

  /** A process whose tree looks the same is still well formed and sees the same. */
  lemma ProcFrame(s: Memory, s': Memory, pr: Proc, tramp: nat)
    requires ProcOk(s, pr, tramp) && VmInv(s) && VmInv(s') && IsRoot(s', pr.root)
    requires s'.role.Keys == s.role.Keys && s'.role[pr.trapframe] == s.role[pr.trapframe]
    requires forall v: nat | v < MAX_VPN :: Alike(s, s', pr.root, v)
    ensures ProcOk(s', pr, tramp) && SpaceOf(s', pr) == SpaceOf(s, pr)
  {
    hide Linked, AllocInv, Entry, Leaf, LeavesOk, RefsOk, Injective, Sees;
    assert Alike(s, s', pr.root, TRAPFRAME_VPN) && Alike(s, s', pr.root, TRAMPOLINE_VPN);
    forall v: nat | v < TRAPFRAME_VPN
      ensures Sees(s', pr.root, v) == Sees(s, pr.root, v)
      ensures Entry(s, pr.root, v).v ==> Entry(s', pr.root, v).v
      ensures Entry(s, pr.root, v) == ZERO_PTE ==> Entry(s', pr.root, v) == ZERO_PTE
    {
      assert Alike(s, s', pr.root, v);
    }
  }

  // ---------------------------------------------------------------------
  // Conservation of pages

  /** Page for page the same use and the same count. */
  ghost predicate SameCounts(s: Memory, s': Memory) {
    s'.role == s.role && forall p | p in s.role :: p in s.refcnt && p in s'.refcnt && s'.refcnt[p] == s.refcnt[p]
  }

  lemma MapsAlike(s: Memory, s': Memory, q: nat)
    requires Apart(s, s')
    ensures Refs(s', q) == Refs(s, q)
  {
    hide Linked, AllocInv, Entry, Leaf, LeavesOk, RefsOk, Injective, Sees;
    forall r: nat, v: nat ensures Maps(s', r, v, q) <==> Maps(s, r, v, q) {
      if IsRoot(s, r) && v < MAX_VPN { assert Alike(s, s', r, v); }
    }
    RefsSame(s, s', q);
  }

  /** A page is a user page exactly when some user entry maps it. */
  lemma UserIffMapped(s: Memory, q: nat)
    requires VmInv(s) && q in s.role
    ensures s.role[q].User? <==> Refs(s, q) != {}
  {
    hide Linked, ListInv, Entry, Leaf, Injective;
    if Refs(s, q) != {} {
      var x :| x in Refs(s, q);
      RefsMember(s, q, x.0, x.1);
      assert LeafOk(s, x.0, x.1);
    }
  }

  /**
    If the same processes see the same pages and nothing is left in hand, then every
    page has its old use and its old count, and as many pages are free as before.
   */
  lemma Restored(s: Memory, s': Memory)
    requires Apart(s, s') && NoHeld(s) && NoHeld(s')
    ensures SameCounts(s, s') && |s'.freelist| == |s.freelist|
  {
    hide Linked, ListInv, Entry, Leaf, Injective, LeavesOk, Alike;
    forall p | p in s.role ensures s'.role[p] == s.role[p] && s'.refcnt[p] == s.refcnt[p] {
      UserIffMapped(s, p);
      UserIffMapped(s', p);
      MapsAlike(s, s', p);
      CountOf(s, p);
      CountOf(s', p);
    }
    assert s'.role == s.role;
    SameRoleSameFree(s, s');
  }

  lemma CountOf(s: Memory, p: nat)
    requires VmInv(s) && p in s.role
    ensures s.refcnt[p] == if s.role[p].Free? then 0 else if s.role[p].User? then |Refs(s, p)| else 1
  {
    hide Linked, Entry, Leaf, Injective, LeavesOk;
  }

  // ---------------------------------------------------------------------
  // allocproc and freeproc

  /** Exactly the page c is in hand in addition to what was in hand before. */
  ghost predicate HeldPlus(s: Memory, s': Memory, c: nat) {
    && s'.role.Keys == s.role.Keys && c in s.role && s.role[c].Free?
    && forall p | p in s.role :: s'.role[p].Held? <==> s.role[p].Held? || p == c
  }

  lemma BesideBase(s: Memory, a: Memory, r: nat)
    requires VmInv(s) && s.freelist != [] && VmInv(Taken(s, Held))
    ensures Beside(Taken(s, Held), a, r) ==> Beside(s, a, r)
    ensures Apart(Taken(s, Held), a) ==> Apart(s, a)
    ensures HeldSame(Taken(s, Held), a) ==> HeldPlus(s, a, s.freelist[0])
  {
    hide Linked, AllocInv, Entry, Leaf, LeavesOk, RefsOk, Injective, Sees;
    var h := Taken(s, Held);
    FirstFree(s);
    TakenStep(s, 0);
    assert forall q, v: nat | IsRoot(s, q) && v < MAX_VPN :: Alike(s, h, q, v);
    if Beside(h, a, r) || Apart(h, a) {
      forall q, v: nat | IsRoot(s, q) && v < MAX_VPN ensures Alike(s, a, q, v) {
        assert Alike(s, h, q, v) && Alike(h, a, q, v);
      }
    }
  }

  /** Giving the held trapframe page back changes no process. */
  lemma FreedHeld(s: Memory, a: Memory, tf: nat, r: nat)
    requires VmInv(s) && VmInv(a) && HeldPlus(s, a, tf)
    ensures tf in a.role && ListInv(a) && HeldSame(s, Freed(a, tf)) && Step(a, Freed(a, tf), r, 0, 0)
    ensures Apart(s, a) ==> Apart(s, Freed(a, tf))
    ensures Beside(s, a, r) ==> Beside(s, Freed(a, tf), r)
  {
    hide Linked, Entry, Leaf, LeavesOk, RefsOk, Injective, Sees, ListInv, SameOutside;
    HeldFree(a, tf);
    FreedStep(a, tf, r);
    if Beside(s, a, r) { BesideStep(s, a, Freed(a, tf), r, 0, 0); }
    if Apart(s, a) { ApartFreed(s, a, tf, r); }
  }

  lemma ApartFreed(s: Memory, a: Memory, tf: nat, r: nat)
    requires Apart(s, a) && tf in a.role && a.role[tf].Held? && tf in a.refcnt
    requires Step(a, Freed(a, tf), r, 0, 0) && Freed(a, tf).role == a.role[tf := Free] && s.role[tf].Free?
    ensures Apart(s, Freed(a, tf))
  {
    hide Linked, AllocInv, Entry, Leaf, LeavesOk, RefsOk, Injective, Sees, Freed;
    var f := Freed(a, tf);
    forall q, v: nat | IsRoot(s, q) && v < MAX_VPN ensures Alike(s, f, q, v) {
      assert Alike(s, a, q, v) && Alike(a, f, q, v);
    }
  }

  /** allocproc's memory: a trapframe page in hand and an empty tree, or nothing. */
  method AllocTree(m: Machine) returns (tf: nat, r: nat)
    requires VmInv(m.mem)
    modifies m`mem
    ensures r != 0 <==> |old(m.mem).freelist| >= 4
    ensures r == 0 ==> Apart(old(m.mem), m.mem) && HeldSame(old(m.mem), m.mem)
    ensures r != 0 ==>
              && Beside(old(m.mem), m.mem, r) && FreshTree(m.mem, r, tf, m.trampoline)
              && HeldPlus(old(m.mem), m.mem, tf)
              && Spots(m.mem, r) == TopSpots() && |m.mem.freelist| == |old(m.mem).freelist| - 4
  {
    hide Linked, AllocInv, Entry, Leaf, LeavesOk, RefsOk, Injective, Sees, Apart, Beside, HeldSame, HeldPlus, Spots,
      TopSpots;
    ghost var s := m.mem;
    tf := m.Kalloc(Held);
    if tf == 0 {
      ApartNull(s);
      NullHeld(s);
      return 0, 0;
    }
    TakenQuiet(s);
    r := ProcPagetable(m, tf);
    BesideBase(s, m.mem, r);
    ApartInv(s, m.mem, r);
    if r == 0 {
      FreedHeld(s, m.mem, tf, 0);
      HeldNotFree(s, m.mem, tf);
      m.Kfree(tf);
    }
  }

  lemma NullHeld(s: Memory)
    ensures HeldSame(s, s.(refcnt := s.refcnt[0 := 1]))
  {
  }

  lemma ApartInv(s: Memory, a: Memory, r: nat)
    ensures Apart(s, a) || Beside(s, a, r) ==> VmInv(s) && VmInv(a)
  {
  }

  lemma HeldNotFree(s: Memory, a: Memory, tf: nat)
    requires HeldPlus(s, a, tf)
    ensures tf in a.role && a.role[tf].Held?
  {
  }

  /** freeproc on a child that got no user memory. */
  method AbandonTree(m: Machine, tf: nat, r: nat, ghost s: Memory)
    requires VmInv(s) && Beside(s, m.mem, r) && HeldPlus(s, m.mem, tf) && FreshTree(m.mem, r, tf, m.trampoline)
    modifies m`mem
    ensures Apart(s, m.mem) && HeldSame(s, m.mem)
  {
    hide Linked, AllocInv, Entry, Leaf, LeavesOk, RefsOk, Injective, Sees, Apart, Beside, SameOutside, HeldSame,
      HeldPlus, TreeGone, Kept;
    ghost var a := m.mem;
    BesideRoot(s, a, r);
    FreedHeld(s, a, tf, r);
    HeldNotFree(s, a, tf);
    m.Kfree(tf);
    RangeFrame(a, m.mem, r, 0, 0, 0, TRAPFRAME_VPN);
    HighEntryFrame(a, m.mem, r, 0, 0);
    ghost var b := m.mem;
    ProcFreepagetable(m, r, 0);
    BesideGone(s, b, m.mem, r);
    GoneHeld(s, b, m.mem, r);
  }

  lemma BesideRoot(s: Memory, a: Memory, r: nat)
    requires Beside(s, a, r)
    ensures VmInv(a) && IsRoot(a, r)
  {
  }

  lemma GoneHeld(s: Memory, b: Memory, c: Memory, r: nat)
    requires HeldSame(s, b) && TreeGone(b, c, r)
    ensures HeldSame(s, c)
  {
  }

  // ---------------------------------------------------------------------
  // fork

  /** fork as it was before copy-on-write: the child gets its own copy of every page. */
  function EagerFork(view: map<nat, Space>, p: nat, c: nat): map<nat, Space>
    requires p in view
  {
    view[c := view[p]]
  }

  /** The held page becomes the trapframe of the new process. */
  ghost function Adopted(s: Memory, tf: nat, r: nat): Memory {
    s.(role := s.role[tf := Trapframe(r)])
  }

  lemma AdoptedKeeps(s: Memory, tf: nat, r: nat)
    requires VmInv(s) && tf in s.role && s.role[tf].Held?
    ensures var s' := Adopted(s, tf, r);
            && VmInv(s') && (forall q :: IsRoot(s', q) <==> IsRoot(s, q))
            && (forall q, v: nat | IsRoot(s, q) && v < MAX_VPN ::
                  Alike(s, s', q, v) && Entry(s', q, v) == Entry(s, q, v))
  {
    hide Linked, Leaf, Entry, ListInv, LeavesOk, RefsOk, Injective;
    var s' := Adopted(s, tf, r);
    AdoptedShape(s, tf, r);
    QuietKeeps(s, s');
  }

  lemma AdoptedShape(s: Memory, tf: nat, r: nat)
    requires AllocInv(s) && TreeInv(s) && tf in s.role && s.role[tf].Held?
    ensures var s' := Adopted(s, tf, r); AllocInv(s') && TreeInv(s') && SameMaps(s, s')
  {
    hide Leaf, Entry;
    var s' := Adopted(s, tf, r);
    assert AllocInv(s');
    hide ListInv;
    TreeFrame(s, s');
  }

  /** A child tree beside the old ones, filled with what the parent sees. */
  ghost predicate ChildReady(s: Memory, b: Memory, parent: Proc, r: nat, tf: nat, tramp: nat) {
    && Beside(s, b, r) && HeldPlus(s, b, tf) && NoHeld(s) && IsRoot(s, parent.root)
      && PagesFor(parent.sz) <= TRAPFRAME_VPN
    && Mapped(b, r, 0, PagesFor(parent.sz)) && Cleared(b, r, PagesFor(parent.sz), TRAPFRAME_VPN)
    && Entry(b, r, TRAPFRAME_VPN) == TrapframePte(tf) && Entry(b, r, TRAMPOLINE_VPN) == TrampolinePte(tramp)
    && (forall v: nat | v < PagesFor(parent.sz) :: Sees(b, r, v) == Sees(s, parent.root, v))
  }

  lemma ChildOk(s: Memory, b: Memory, parent: Proc, r: nat, tf: nat, tramp: nat)
    requires ChildReady(s, b, parent, r, tf, tramp)
    ensures var b' := Adopted(b, tf, r);
            && VmInv(b') && ProcOk(b', Proc(r, parent.sz, tf), tramp)
            && SpaceOf(b', Proc(r, parent.sz, tf)) == SpaceOf(s, parent)
  {
    hide Linked, AllocInv, Entry, Leaf, LeavesOk, RefsOk, Injective, Sees;
    AdoptedKeeps(b, tf, r);
    var b' := Adopted(b, tf, r);
    assert IsRoot(b', r);
    assert forall v: nat | v < MAX_VPN :: Alike(b, b', r, v) && Entry(b', r, v) == Entry(b, r, v);
    forall v: nat | v < PagesFor(parent.sz) ensures Sees(b', r, v) == Sees(s, parent.root, v) {
      assert Alike(b, b', r, v);
    }
  }

  lemma OtherOk(s: Memory, b: Memory, parent: Proc, r: nat, tf: nat, tramp: nat, pr: Proc)
    requires ChildReady(s, b, parent, r, tf, tramp) && ProcOk(s, pr, tramp)
    ensures var b' := Adopted(b, tf, r);
            VmInv(b') && ProcOk(b', pr, tramp) && SpaceOf(b', pr) == SpaceOf(s, pr)
  {
    hide Linked, AllocInv, Entry, Leaf, LeavesOk, RefsOk, Injective, Sees;
    AdoptedKeeps(b, tf, r);
    var b' := Adopted(b, tf, r);
    forall v: nat | v < MAX_VPN ensures Alike(s, b', pr.root, v) {
      assert Alike(s, b, pr.root, v) && Alike(b, b', pr.root, v);
    }
    ProcFrame(s, b', pr, tramp);
  }

  lemma ForkInv(s: Memory, b: Memory, procs: map<nat, Proc>, tramp: nat, p: nat, c: nat, r: nat, tf: nat)
    requires ProcInv(s, procs, tramp) && p in procs && c !in procs && c < NPROC
    requires ChildReady(s, b, procs[p], r, tf, tramp)
    ensures ProcInv(Adopted(b, tf, r), procs[c := Proc(r, procs[p].sz, tf)], tramp)
  {
    hide SpaceOf, VmInv, Mapped, Cleared, Entry, Alike, PagesFor;
    var b' := Adopted(b, tf, r);
    var procs' := procs[c := Proc(r, procs[p].sz, tf)];
    ChildOk(s, b, procs[p], r, tf, tramp);
    forall q | q in procs ensures ProcOk(b', procs[q], tramp) {
      OtherOk(s, b, procs[p], r, tf, tramp, procs[q]);
    }
    AdoptedRoots(s, b, procs, tramp, r, tf);
    ForkOwners(s, b, procs, tramp, c, Proc(r, procs[p].sz, tf));
  }

  lemma ForkOwners(s: Memory, b: Memory, procs: map<nat, Proc>, tramp: nat, c: nat, child: Proc)
    requires ProcInv(s, procs, tramp) && c !in procs && Beside(s, b, child.root) && HeldPlus(s, b, child.trapframe)
    ensures var b', procs' := Adopted(b, child.trapframe, child.root), procs[c := child];
            && (forall q :: IsRoot(b', q) ==> exists x :: x in procs' && procs'[x].root == q)
            && (forall t | t in b'.role && b'.role[t].Trapframe? ::
                  exists x :: x in procs' && procs'[x].trapframe == t && procs'[x].root == b'.role[t].owner)
  {
    hide VmInv, Mapped, Cleared, Entry, Alike, ProcOk;
    var r, tf := child.root, child.trapframe;
    var b' := Adopted(b, tf, r);
    var procs' := procs[c := child];
    AdoptedRoots(s, b, procs, tramp, r, tf);
    forall q | IsRoot(b', q) ensures exists x :: x in procs' && procs'[x].root == q {
      if q == r {
        assert procs'[c].root == r;
      } else {
        var x :| x in procs && procs[x].root == q;
        assert procs'[x].root == q;
      }
    }
    forall t | t in b'.role && b'.role[t].Trapframe?
      ensures exists x :: x in procs' && procs'[x].trapframe == t && procs'[x].root == b'.role[t].owner
    {
      if t == tf {
        assert procs'[c].trapframe == t;
      } else {
        var x :| x in procs && procs[x].trapframe == t && procs[x].root == s.role[t].owner;
        assert procs'[x].trapframe == t;
      }
    }
  }

  lemma ProcOf(s: Memory, procs: map<nat, Proc>, tramp: nat, p: nat)
    requires ProcInv(s, procs, tramp) && p in procs
    ensures VmInv(s) && ProcOk(s, procs[p], tramp)
  {
  }

  lemma ForkView(s: Memory, b: Memory, procs: map<nat, Proc>, tramp: nat, p: nat, c: nat, r: nat, tf: nat)
    requires ProcInv(s, procs, tramp) && p in procs && c !in procs && c < NPROC
    requires ChildReady(s, b, procs[p], r, tf, tramp)
    requires ProcInv(Adopted(b, tf, r), procs[c := Proc(r, procs[p].sz, tf)], tramp)
    ensures View(Adopted(b, tf, r), procs[c := Proc(r, procs[p].sz, tf)], tramp)
            == EagerFork(View(s, procs, tramp), p, c)
  {
    hide SpaceOf, VmInv, Mapped, Cleared, Entry, Alike, PagesFor, ChildReady, ProcInv;
    var b' := Adopted(b, tf, r);
    ChildOk(s, b, procs[p], r, tf, tramp);
    forall q | q in procs ensures ProcOk(s, procs[q], tramp) { ProcOf(s, procs, tramp, q); }
    forall q | q in procs ensures ProcOk(b', procs[q], tramp) && SpaceOf(b', procs[q]) == SpaceOf(s, procs[q]) {
      OtherOk(s, b, procs[p], r, tf, tramp, procs[q]);
    }
  }

  lemma AdoptedRoots(s: Memory, b: Memory, procs: map<nat, Proc>, tramp: nat, r: nat, tf: nat)
    requires ProcInv(s, procs, tramp) && Beside(s, b, r) && HeldPlus(s, b, tf)
    ensures var b' := Adopted(b, tf, r);
            && (forall q :: IsRoot(b', q) <==> IsRoot(s, q) || q == r)
            && !IsRoot(s, r) && NoHeld(b')
            && (forall t | t in b'.role && b'.role[t].Trapframe? && t != tf :: t in s.role && s.role[t] == b'.role[t])
            && (forall q | q in procs :: procs[q].root != r)
  {
    hide VmInv, Mapped, Cleared, Entry, Alike;
    assert forall q | q in procs :: IsRoot(s, procs[q].root);
  }

  /** The trees and trapframe pages still belong to the processes that owned them. */
  lemma OwnersKept(s: Memory, s': Memory, procs: map<nat, Proc>, tramp: nat)
    requires ProcInv(s, procs, tramp) && VmInv(s') && HeldSame(s, s')
    requires forall q :: IsRoot(s', q) <==> IsRoot(s, q)
    requires forall p | p in s.role :: s.role[p].Trapframe? || s'.role[p].Trapframe? ==> s'.role[p] == s.role[p]
    requires forall p | p in procs :: ProcOk(s', procs[p], tramp)
    ensures ProcInv(s', procs, tramp)
  {
    hide VmInv, Mapped, Cleared, Entry, ProcOk;
  }

  lemma SameView(s: Memory, s': Memory, procs: map<nat, Proc>, tramp: nat)
    requires ProcInv(s, procs, tramp) && Apart(s, s') && HeldSame(s, s')
    ensures ProcInv(s', procs, tramp) && View(s', procs, tramp) == View(s, procs, tramp)
  {
    hide VmInv, Mapped, Cleared, Entry, SpaceOf, Alike, PagesFor;
    forall p | p in procs ensures ProcOk(s', procs[p], tramp) && SpaceOf(s', procs[p]) == SpaceOf(s, procs[p]) {
      ProcFrame(s, s', procs[p], tramp);
    }
    OwnersKept(s, s', procs, tramp);
  }

  /** Looks for an unused slot in the process table. */
  method FindUnused(procs: map<nat, Proc>) returns (c: nat)
    ensures c <= NPROC && (c < NPROC ==> c !in procs)
    ensures c == NPROC <==> forall i: nat | i < NPROC :: i in procs
  {
    c := 0;
    while c < NPROC
      invariant c <= NPROC && forall i: nat | i < c :: i in procs
    {
      if c !in procs {
        return;
      }
      c := c + 1;
    }
  }

  ghost predicate Inv(m: Machine)
    reads m
  {
    ProcInv(m.mem, m.procs, m.trampoline)
  }

  ghost function Views(m: Machine): map<nat, Space>
    requires Inv(m)
    reads m
  {
    View(m.mem, m.procs, m.trampoline)
  }

  // ---------------------------------------------------------------------
  // What fork costs

  /** The pages a fork of n user pages takes: trapframe, root, three more tables at least, one per 512 pages. */
  function ForkPages(n: nat): nat {
    4 + (n + 511) / 512 + if n > 0 then 1 else 0
  }

  ghost function FirstLeaves(k: nat): (r: set<Spot>)
    ensures |r| == k && forall p :: p in r <==> p.level == 0 && p.prefix < k
  {
    if k == 0 then {} else FirstLeaves(k - 1) + {Spot(0, k - 1)}
  }

  /** Below 2^18 pages a tree needs one level-1 page and one level-0 page per 512 pages. */
  lemma LowPaths(n: nat)
    requires n < 262144
    ensures PathsTo(0, n) == FirstLeaves((n + 511) / 512) + if n > 0 then {Spot(1, 0)} else {}
  {
    hide FirstLeaves;
    var k := (n + 511) / 512;
    var all := FirstLeaves(k) + if n > 0 then {Spot(1, 0)} else {};
    forall p | p in all ensures p in PathsTo(0, n) {
      LowSpot(n, p);
    }
    forall p | p in PathsTo(0, n) ensures p in all {
      var v: nat :| v < n && p in Path(v);
      assert p == Spot(1, v / 262144) || p == Spot(0, v / 512);
      assert v / 262144 == 0 && v / 512 < k;
    }
  }

  lemma LowSpot(n: nat, p: Spot)
    requires 0 < n < 262144 && (p == Spot(1, 0) || (p.level == 0 && p.prefix < (n + 511) / 512))
    ensures p in PathsTo(0, n)
  {
    hide PathsTo;
    var v := if p.level == 0 then p.prefix * 512 else 0;
    assert v / 512 == (if p.level == 0 then p.prefix else 0) && p in Path(v);
    PathWithin(v, 0, n);
  }

  lemma ForkTables(s: Memory, r: nat, n: nat)
    requires Spots(s, r) == TopSpots() && n < 0x8000
    ensures Lacking(s, r, 0, n) == (n + 511) / 512 + if n > 0 then 1 else 0
  {
    hide Spots, PathsTo;
    LowPaths(n);
    var leaves := FirstLeaves((n + 511) / 512);
    assert PathsTo(0, n) - TopSpots() == PathsTo(0, n);
    assert Spot(1, 0) !in leaves;
  }

  /** The child's memory: allocproc's tree filled by uvmcopy, or everything undone. */
  method ForkTree(m: Machine, parent: Proc) returns (tf: nat, r: nat)
    requires VmInv(m.mem) && NoHeld(m.mem) && ProcOk(m.mem, parent, m.trampoline)
    modifies m`mem
    ensures r != 0 <==> |old(m.mem).freelist| >= ForkPages(PagesFor(parent.sz))
    ensures r == 0 ==> Apart(old(m.mem), m.mem) && HeldSame(old(m.mem), m.mem)
    ensures r != 0 ==> ChildReady(old(m.mem), m.mem, parent, r, tf, m.trampoline)
  {
    hide Linked, AllocInv, Entry, Leaf, LeavesOk, RefsOk, Injective, Sees, SameOutside, Apart, Alike, HeldSame,
      HeldPlus, Spots,
      TopSpots, Lacking;
    ghost var s := m.mem;
    MappedBound(s, parent.root, PagesFor(parent.sz), parent.root);
    tf, r := AllocTree(m);
    if r == 0 {
      return;
    }
    ghost var a := m.mem;
    ParentBeside(s, a, parent, r, m.trampoline);
    ForkTables(a, r, PagesFor(parent.sz));
    var ok := Uvmcopy(m, parent.root, r, parent.sz);
    ghost var b := m.mem;
    HeldPlusSame(s, a, b, tf);
    if !ok {
      BesideStep(s, a, b, r, 0, 0);
      RangeFrame(a, b, r, 0, 0, 0, TRAPFRAME_VPN);
      HighEntryFrame(a, b, r, 0, 0);
      AbandonTree(m, tf, r, s);
      return 0, 0;
    }
    BesideStep(s, a, b, r, 0, PagesFor(parent.sz));
    RangeFrame(a, b, r, 0, PagesFor(parent.sz), PagesFor(parent.sz), TRAPFRAME_VPN);
    HighEntryFrame(a, b, r, 0, PagesFor(parent.sz));
    ParentSees(s, a, parent, r);
  }

  lemma HeldPlusSame(s: Memory, a: Memory, b: Memory, c: nat)
    requires HeldPlus(s, a, c) && HeldSame(a, b)
    ensures HeldPlus(s, b, c)
  {
  }

  lemma ParentBeside(s: Memory, a: Memory, parent: Proc, r: nat, tramp: nat)
    requires Beside(s, a, r) && ProcOk(s, parent, tramp)
    ensures VmInv(a) && IsRoot(a, parent.root) && IsRoot(a, r) && parent.root != r
    ensures Mapped(a, parent.root, 0, PagesFor(parent.sz))
  {
    hide Linked, AllocInv, Entry, Leaf, LeavesOk, RefsOk, Injective, Sees;
    forall v: nat | v < PagesFor(parent.sz) ensures Entry(a, parent.root, v).v {
      assert Alike(s, a, parent.root, v);
    }
  }

  lemma ParentSees(s: Memory, a: Memory, parent: Proc, r: nat)
    requires Beside(s, a, r) && IsRoot(s, parent.root) && PagesFor(parent.sz) <= TRAPFRAME_VPN
    ensures forall v: nat | v < PagesFor(parent.sz) :: Sees(a, parent.root, v) == Sees(s, parent.root, v)
  {
    hide Linked, AllocInv, Entry, Leaf, LeavesOk, RefsOk, Injective, Sees;
    forall v: nat | v < PagesFor(parent.sz) ensures Sees(a, parent.root, v) == Sees(s, parent.root, v) {
      assert Alike(s, a, parent.root, v);
    }
  }

  ghost predicate CanFork(s: Memory, procs: map<nat, Proc>, p: nat)
    requires p in procs
  {
    (exists i: nat :: i < NPROC && i !in procs) && |s.freelist| >= ForkPages(PagesFor(procs[p].sz))
  }

  /**
    fork.  It succeeds exactly if there is a free slot and enough memory for the child's
    trapframe and page tables.  A successful fork is an eager fork in the eyes of every
    process.  A failed one gives back every page: the same uses, the same counts, as many
    free pages.
   */
  method DoFork(m: Machine, p: nat) returns (child: Option<nat>)
    requires Inv(m) && p in m.procs
    modifies m`mem, m`procs
    ensures Inv(m) && (child.Some? <==> CanFork(old(m.mem), old(m.procs), p))
    ensures child.Some? ==>
              && child.value !in old(m.procs) && m.procs.Keys == old(m.procs).Keys + {child.value}
              && Views(m) == EagerFork(old(Views(m)), p, child.value)
    ensures child.None? ==>
              && m.procs == old(m.procs) && Views(m) == old(Views(m))
              && SameCounts(old(m.mem), m.mem) && |m.mem.freelist| == |old(m.mem).freelist|
  {
    hide VmInv, Mapped, Cleared, Entry, SpaceOf, Alike, PagesFor, ChildReady, ProcInv, Apart, HeldSame;
    ghost var s := m.mem;
    ghost var procs := m.procs;
    ProcOf(s, procs, m.trampoline, p);
    InvHeld(s, procs, m.trampoline);
    var c := FindUnused(m.procs);
    if c == NPROC {
      return None;
    }
    var tf, r := ForkTree(m, m.procs[p]);
    if r == 0 {
      SameView(s, m.mem, procs, m.trampoline);
      InvHeld(m.mem, procs, m.trampoline);
      Restored(s, m.mem);
      return None;
    }
    ForkInv(s, m.mem, procs, m.trampoline, p, c, r, tf);
    ForkView(s, m.mem, procs, m.trampoline, p, c, r, tf);
    m.mem := m.mem.(role := m.mem.role[tf := Trapframe(r)]);
    m.procs := m.procs[c := Proc(r, m.procs[p].sz, tf)];
    return Some(c);
  }

  lemma InvHeld(s: Memory, procs: map<nat, Proc>, tramp: nat)
    requires ProcInv(s, procs, tramp)
    ensures NoHeld(s) && VmInv(s) && SameCounts(s, s)
  {
  }

  // ---------------------------------------------------------------------
  // Operations on the memory of one process

  /** A step on one process's user pages leaves the other processes as they were. */
  lemma OthersOk(s: Memory, s': Memory, procs: map<nat, Proc>, tramp: nat, p: nat, q: nat)
    requires ProcInv(s, procs, tramp) && p in procs && q in procs && q != p
    requires Step(s, s', procs[p].root, 0, TRAPFRAME_VPN)
    ensures ProcOk(s', procs[q], tramp) && SpaceOf(s', procs[q]) == SpaceOf(s, procs[q])
  {
    hide VmInv, Mapped, Cleared, Entry, SpaceOf, Alike, PagesFor;
    ProcFrame(s, s', procs[q], tramp);
  }

  lemma LocalOwners(s: Memory, s': Memory, procs: map<nat, Proc>, tramp: nat, p: nat, pr: Proc)
    requires ProcInv(s, procs, tramp) && p in procs && pr.root == procs[p].root && pr.trapframe == procs[p].trapframe
    requires Kept(s, s', pr.root) && HeldSame(s, s')
    ensures var procs' := procs[p := pr];
            && NoHeld(s')
            && (forall x, y | x in procs' && y in procs' && procs'[x].root == procs'[y].root :: x == y)
            && (forall r :: IsRoot(s', r) ==> exists x :: x in procs' && procs'[x].root == r)
            && (forall t | t in s'.role && s'.role[t].Trapframe? ::
                  exists x :: x in procs' && procs'[x].trapframe == t && procs'[x].root == s'.role[t].owner)
  {
    hide VmInv, ProcOk;
    var procs' := procs[p := pr];
    forall r | IsRoot(s', r) ensures exists x :: x in procs' && procs'[x].root == r {
      var x :| x in procs && procs[x].root == r;
      assert procs'[x].root == r;
    }
    forall t | t in s'.role && s'.role[t].Trapframe?
      ensures exists x :: x in procs' && procs'[x].trapframe == t && procs'[x].root == s'.role[t].owner
    {
      assert s.role[t] == s'.role[t];
      var x :| x in procs && procs[x].trapframe == t && procs[x].root == s.role[t].owner;
      assert procs'[x].trapframe == t;
    }
  }

  lemma LocalInv(s: Memory, s': Memory, procs: map<nat, Proc>, tramp: nat, p: nat, pr: Proc)
    requires ProcInv(s, procs, tramp) && p in procs && pr.root == procs[p].root && pr.trapframe == procs[p].trapframe
    requires Step(s, s', pr.root, 0, TRAPFRAME_VPN) && HeldSame(s, s') && ProcOk(s', pr, tramp)
    ensures ProcInv(s', procs[p := pr], tramp)
    ensures View(s', procs[p := pr], tramp) == View(s, procs, tramp)[p := SpaceOf(s', pr)]
  {
    hide VmInv, Mapped, Cleared, Entry, SpaceOf, SameOutside, PagesFor, Kept, HeldSame;
    LocalOwners(s, s', procs, tramp, p, pr);
    forall q | q in procs && q != p ensures ProcOk(s', procs[q], tramp)
      && SpaceOf(s', procs[q]) == SpaceOf(s, procs[q]) {
      OthersOk(s, s', procs, tramp, p, q);
    }
  }

  /** The two supervisor pages survive a step on user pages. */
  lemma HighOk(s: Memory, s': Memory, pr: Proc, tramp: nat)
    requires ProcOk(s, pr, tramp) && Step(s, s', pr.root, 0, TRAPFRAME_VPN)
    ensures IsRoot(s', pr.root)
    ensures Entry(s', pr.root, TRAPFRAME_VPN) == TrapframePte(pr.trapframe)
    ensures Entry(s', pr.root, TRAMPOLINE_VPN) == TrampolinePte(tramp)
    ensures pr.trapframe in s'.role && s'.role[pr.trapframe] == Trapframe(pr.root)
  {
    hide VmInv, Mapped, Cleared, Entry, Sees;
    HighEntryFrame(s, s', pr.root, 0, TRAPFRAME_VPN);
  }

  lemma HighPrivateOk(s: Memory, pr: Proc, tramp: nat)
    requires ProcOk(s, pr, tramp)
    ensures HighPrivate(s, pr.root)
  {
    hide Entry, Mapped, Cleared;
  }

  /** A byte string written into an address space that owns its pages. */
  ghost function PokeSpace(sp: Space, va: nat, data: seq<byte>): Space {
    Space(sp.sz, map v | v in sp.pages :: PokePage(Some(sp.pages[v]), v, va, data).value)
  }

  ghost function EagerPoke(view: map<nat, Space>, p: nat, va: nat, data: seq<byte>): map<nat, Space>
    requires p in view
  {
    view[p := PokeSpace(view[p], va, data)]
  }

  lemma PokedPage(s: Memory, s': Memory, r: nat, va: nat, data: seq<byte>, v: nat)
    requires VmInv(s) && VmInv(s') && IsRoot(s, r) && IsRoot(s', r) && v < TRAPFRAME_VPN
    requires Sees(s', r, v) == PokePage(Sees(s, r, v), v, va, data)
    ensures Entry(s', r, v).v <==> Entry(s, r, v).v
    ensures Entry(s, r, v) == ZERO_PTE ==> Entry(s', r, v) == ZERO_PTE
    ensures Entry(s, r, v).v ==> Sees(s, r, v).Some? && Sees(s', r, v).Some?
  {
    hide Linked, AllocInv, Entry, Leaf, RefsOk, Injective, PokeBytes;
    assert LeafOk(s, r, v) && LeafOk(s', r, v);
  }

  lemma PokedOk(s: Memory, s': Memory, pr: Proc, tramp: nat, va: nat, data: seq<byte>)
    requires ProcOk(s, pr, tramp) && VmInv(s) && Poked(s, s', pr.root, va, data)
    ensures ProcOk(s', pr, tramp) && SpaceOf(s', pr) == PokeSpace(SpaceOf(s, pr), va, data)
  {
    hide Linked, AllocInv, Entry, Leaf, RefsOk, LeavesOk, Injective, Kept, SameOutside, Sees, PokeBytes;
    HighOk(s, s', pr, tramp);
    forall v: nat | v < TRAPFRAME_VPN
      ensures Entry(s', pr.root, v).v <==> Entry(s, pr.root, v).v
      ensures Entry(s, pr.root, v) == ZERO_PTE ==> Entry(s', pr.root, v) == ZERO_PTE
      ensures Entry(s, pr.root, v).v ==> Sees(s, pr.root, v).Some? && Sees(s', pr.root, v).Some?
    {
      PokedPage(s, s', pr.root, va, data, v);
    }
    assert SpaceOf(s', pr).pages == PokeSpace(SpaceOf(s, pr), va, data).pages;
  }
}
