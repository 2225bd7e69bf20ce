/**
  Every memory operation of a process, and whole runs of them.  The specification
  is a machine without sharing: fork copies, a store changes one process only.
 */
module Processes {
  import opened Prelude
  import opened Sv39
  import opened Kalloc
  import opened PageTable
  import opened Supply
  import opened PageWalk
  import opened Cow
  import opened Vm
  import opened TreeLife
  import opened ProcTree
  import opened UserMem
  import opened Fork

  // ---------------------------------------------------------------------
  // User stores, copyout and copyin

  /** A page the process may write, judged by what it sees. */
  ghost predicate CanWrite(sp: Space, v: nat) {
    v in sp.pages && sp.pages[v].u && sp.pages[v].w
  }

  /** Every byte of the n at va is on a page the process may write. */
  ghost predicate MayWrite(sp: Space, va: nat, n: nat) {
    forall a: nat | va <= a < va + n :: CanWrite(sp, a / PAGE_BYTES)
  }

  lemma CanWriteSees(s: Memory, pr: Proc, tramp: nat, v: nat)
    requires ProcOk(s, pr, tramp) && VmInv(s)
    ensures CanWrite(SpaceOf(s, pr), v) <==> Writable(s, pr.root, v)
  {
    hide Linked, AllocInv, Entry, Leaf, RefsOk, Injective;
    if v < TRAPFRAME_VPN { assert LeafOk(s, pr.root, v); }
  }

  lemma PokedInv(s: Memory, s': Memory, procs: map<nat, Proc>, tramp: nat, p: nat, va: nat, data: seq<byte>)
    requires ProcInv(s, procs, tramp) && p in procs && Poked(s, s', procs[p].root, va, data)
    ensures ProcInv(s', procs, tramp)
    ensures View(s', procs, tramp) == EagerPoke(View(s, procs, tramp), p, va, data)
  {
    hide VmInv, Mapped, Cleared, Entry, SpaceOf, SameOutside, Kept, PokeSpace, HeldSame;
    PokedOk(s, s', procs[p], tramp, va, data);
    assert procs[p := procs[p]] == procs;
    LocalInv(s, s', procs, tramp, p, procs[p]);
  }

  lemma PokeNobody(view: map<nat, Space>, p: nat, va: nat)
    requires p in view && forall v | v in view[p].pages :: |view[p].pages[v].bytes| == PAGE_BYTES
    ensures EagerPoke(view, p, va, []) == view
  {
    var sp := view[p];
    forall v | v in sp.pages ensures PokePage(Some(sp.pages[v]), v, va, []).value == sp.pages[v] {
      PokeNothing(sp.pages[v].bytes, v, va);
    }
    assert PokeSpace(sp, va, []).pages == sp.pages;
  }

  lemma PageLengths(s: Memory, procs: map<nat, Proc>, tramp: nat, p: nat)
    requires ProcInv(s, procs, tramp) && p in procs
    ensures forall v | v in View(s, procs, tramp)[p].pages :: |View(s, procs, tramp)[p].pages[v].bytes| == PAGE_BYTES
  {
    hide Linked, AllocInv, Entry, Leaf, RefsOk, LeavesOk, Injective;
  }

  /**
    A store instruction of process p.  It changes that process's view like a store
    into private memory and nobody else's; a killed process changed nothing.
   */
  method Store(m: Machine, p: nat, va: nat, b: byte) returns (out: StoreResult)
    requires Inv(m) && p in m.procs
    modifies m`mem
    ensures Inv(m)
    ensures out == Panicked <==> StorePanics(old(m.mem), m.procs[p].root, va)
    ensures out == Panicked ==> StorePanics(m.mem, m.procs[p].root, va) && Views(m) == old(Views(m))
                                && (m.mem.freelist == [] || !CanWrite(Views(m)[p], va / PAGE_BYTES))
    ensures out == Stored ==>
              CanWrite(old(Views(m))[p], va / PAGE_BYTES) && Views(m) == EagerPoke(old(Views(m)), p, va, [b])
    ensures out == Killed ==> !CanWrite(old(Views(m))[p], va / PAGE_BYTES) && Views(m) == old(Views(m))
  {
    hide VmInv, Mapped, Cleared, Entry, SpaceOf, PagesFor, ProcInv, Poked, HighPrivate, EagerPoke, CanWrite, Writable,
      Leaf, HwWritable, StorePanics;
    ghost var s := m.mem;
    ghost var procs := m.procs;
    ProcOf(s, procs, m.trampoline, p);
    HighPrivateOk(s, procs[p], m.trampoline);
    CanWriteSees(s, procs[p], m.trampoline, va / PAGE_BYTES);
    HwFacts(s, procs[p].root, va / PAGE_BYTES);
    PageLengths(s, procs, m.trampoline, p);
    PokeNobody(View(s, procs, m.trampoline), p, va);
    out := UserStore(m, m.procs[p].root, va, b);
    if out == Stored {
      PokedInv(s, m.mem, procs, m.trampoline, p, va, [b]);
    } else {
      if out == Panicked {
        StruckPanics(s, m.mem, procs[p].root, va);
      } else {
        KilledUnwritable(s, procs[p].root, va);
      }
      PokedInv(s, m.mem, procs, m.trampoline, p, va, []);
    }
  }

  /** A store that neither succeeds nor panics was to a page the process may not write. */
  /** Every process in every state has an address at which one store makes the kernel fault. */
  lemma StoreCrashes(s: Memory, procs: map<nat, Proc>, tramp: nat, p: nat) returns (va: nat)
    requires ProcInv(s, procs, tramp) && p in procs
    ensures Bounds(s) && IsRoot(s, procs[p].root) && StorePanics(s, procs[p].root, va)
  {
    hide LeavesOk, RefsOk, Injective, NoHeld, ListInv, Linked, Mapped, Cleared, StorePanics, Leaf, Entry;
    assert ProcOk(s, procs[p], tramp);
    var vpn := LeafMissing(s, procs[p].root);
    HolePanics(s, procs[p].root, vpn);
    va := vpn * PAGE_BYTES;
  }

  lemma KilledUnwritable(s: Memory, r: nat, va: nat)
    requires VmInv(s) && IsRoot(s, r) && HighPrivate(s, r) && !StorePanics(s, r, va)
    requires !(Writable(s, r, va / PAGE_BYTES) && (HwWritable(s, r, va / PAGE_BYTES) || s.freelist != []))
    ensures !Writable(s, r, va / PAGE_BYTES)
  {
    HwFacts(s, r, va / PAGE_BYTES);
  }

  /** copyout to process p: all of src, or the part before a page that cannot be written. */
  method CopyTo(m: Machine, p: nat, dstva: nat, src: seq<byte>) returns (ok: bool, ghost n: nat)
    requires Inv(m) && p in m.procs
    modifies m`mem
    ensures Inv(m) && n <= |src| && (ok <==> n == |src|)
    ensures Views(m) == EagerPoke(old(Views(m)), p, dstva, src[..n])
    ensures MayWrite(old(Views(m))[p], dstva, n)
    ensures !ok ==> (n == 0 || (dstva + n) % PAGE_BYTES == 0)
                    && (!CanWrite(old(Views(m))[p], (dstva + n) / PAGE_BYTES) || m.mem.freelist == [])
  {
    hide VmInv, Mapped, Cleared, Entry, SpaceOf, PagesFor, ProcInv, Poked, HighPrivate, EagerPoke, CanWrite, Writable;
    ghost var s := m.mem;
    ghost var procs := m.procs;
    ProcOf(s, procs, m.trampoline, p);
    HighPrivateOk(s, procs[p], m.trampoline);
    ok, n := Copyout(m, m.procs[p].root, dstva, src);
    CanWriteSees(s, procs[p], m.trampoline, (dstva + n) / PAGE_BYTES);
    ghost var sp := View(s, procs, m.trampoline)[p];
    forall a: nat | dstva <= a < dstva + n ensures CanWrite(sp, a / PAGE_BYTES) {
      CanWriteSees(s, procs[p], m.trampoline, a / PAGE_BYTES);
    }
    PokedInv(s, m.mem, procs, m.trampoline, p, dstva, src[..n]);
  }

  /** A byte the process may read, judged by what it sees. */
  ghost predicate CanRead(sp: Space, a: nat) {
    a / PAGE_BYTES in sp.pages && sp.pages[a / PAGE_BYTES].u && |sp.pages[a / PAGE_BYTES].bytes| == PAGE_BYTES
  }

  ghost function ReadByte(sp: Space, a: nat): byte
    requires CanRead(sp, a)
  {
    sp.pages[a / PAGE_BYTES].bytes[a % PAGE_BYTES]
  }

  lemma CanReadSees(s: Memory, pr: Proc, tramp: nat, a: nat)
    requires ProcOk(s, pr, tramp) && VmInv(s)
    ensures CanRead(SpaceOf(s, pr), a) <==> Readable(s, pr.root, a)
    ensures CanRead(SpaceOf(s, pr), a) ==> ReadByte(SpaceOf(s, pr), a) == ByteAt(s, pr.root, a)
  {
    hide Linked, AllocInv, Entry, Leaf, RefsOk, Injective;
    if a / PAGE_BYTES < TRAPFRAME_VPN { assert LeafOk(s, pr.root, a / PAGE_BYTES); }
  }

  /** copyin from process p: what the process sees there, exactly when it may read all of it. */
  method CopyFrom(m: Machine, p: nat, srcva: nat, len: nat) returns (data: Option<seq<byte>>)
    requires Inv(m) && p in m.procs
    modifies m`mem
    ensures m.mem == old(m.mem) && Inv(m)
    ensures data.Some? <==> forall a | srcva <= a < srcva + len :: CanRead(Views(m)[p], a)
    ensures data.Some? ==>
              && |data.value| == len
              && forall a | srcva <= a < srcva + len :: data.value[a - srcva] == ReadByte(Views(m)[p], a)
  {
    hide VmInv, Mapped, Cleared, Entry, SpaceOf, PagesFor, ProcInv, HighPrivate, CanRead, Readable, ReadByte, ByteAt;
    ghost var s := m.mem;
    ghost var procs := m.procs;
    ProcOf(s, procs, m.trampoline, p);
    HighPrivateOk(s, procs[p], m.trampoline);
    data := Copyin(m, m.procs[p].root, srcva, len);
    ghost var sp := Views(m)[p];
    forall a: nat | srcva <= a < srcva + len ensures CanRead(sp, a) <==> Readable(s, procs[p].root, a) {
      CanReadSees(s, procs[p], m.trampoline, a);
    }
    if data.Some? {
      forall a: nat | srcva <= a < srcva + len ensures CanRead(sp, a) && data.value[a - srcva] == ReadByte(sp, a) {
        CanReadSees(s, procs[p], m.trampoline, a);
        assert Readable(s, procs[p].root, a);
      }
    }
  }

  // ---------------------------------------------------------------------
  // sbrk

  const USER_RW: Pte := Pte(true, true, true, false, true, false, 0)

  function FreshPage(): PageView { PageView(Filled(0), true, true, false, true) }

  function EagerResize(sp: Space, newsz: nat): Space {
    Space(newsz, map v: nat | v < PagesFor(newsz) && (v in sp.pages || PagesFor(sp.sz) <= v) ::
                   if v in sp.pages then sp.pages[v] else FreshPage())
  }

  lemma GrewOk(s: Memory, s': Memory, pr: Proc, tramp: nat, newsz: nat)
    requires ProcOk(s, pr, tramp) && VmInv(s) && newsz >= pr.sz && PagesFor(newsz) <= TRAPFRAME_VPN
    requires Step(s, s', pr.root, PagesFor(pr.sz), PagesFor(newsz)) && IsRoot(s', pr.root)
    requires FreshPages(s', pr.root, PagesFor(pr.sz), PagesFor(newsz), USER_RW)
    requires Mapped(s', pr.root, 0, PagesFor(newsz)) && Cleared(s', pr.root, PagesFor(newsz), TRAPFRAME_VPN)
    ensures ProcOk(s', pr.(sz := newsz), tramp)
    ensures SpaceOf(s', pr.(sz := newsz)) == EagerResize(SpaceOf(s, pr), newsz)
  {
    hide Linked, AllocInv, Entry, Leaf, RefsOk, LeavesOk, Injective, Kept, Sees;
    StepWiden(s, s', pr.root, PagesFor(pr.sz), PagesFor(newsz), 0, TRAPFRAME_VPN);
    HighOk(s, s', pr, tramp);
    assert PagesFor(pr.sz) <= PagesFor(newsz);
    AllSeen(s, pr, tramp);
    forall v: nat | v < PagesFor(pr.sz) ensures Sees(s', pr.root, v) == Sees(s, pr.root, v) {
      assert Alike(s, s', pr.root, v);
    }
    assert SpaceOf(s', pr.(sz := newsz)).pages == EagerResize(SpaceOf(s, pr), newsz).pages;
  }

  lemma AllSeen(s: Memory, pr: Proc, tramp: nat)
    requires ProcOk(s, pr, tramp) && VmInv(s)
    ensures forall v: nat | v < PagesFor(pr.sz) :: Sees(s, pr.root, v).Some?
  {
    hide Linked, AllocInv, Entry, Leaf, RefsOk, Injective;
    forall v: nat | v < PagesFor(pr.sz) ensures Sees(s, pr.root, v).Some? {
      assert LeafOk(s, pr.root, v);
    }
  }

  lemma ShrankOk(s: Memory, s': Memory, pr: Proc, tramp: nat, newsz: nat)
    requires ProcOk(s, pr, tramp) && VmInv(s) && newsz <= pr.sz
    requires Step(s, s', pr.root, PagesFor(newsz), PagesFor(pr.sz)) && IsRoot(s', pr.root)
    requires Cleared(s', pr.root, PagesFor(newsz), PagesFor(pr.sz))
    ensures ProcOk(s', pr.(sz := newsz), tramp)
    ensures SpaceOf(s', pr.(sz := newsz)) == EagerResize(SpaceOf(s, pr), newsz)
  {
    hide Linked, AllocInv, Entry, Leaf, RefsOk, LeavesOk, Injective, Kept, Sees, SameOutside;
    StepWiden(s, s', pr.root, PagesFor(newsz), PagesFor(pr.sz), 0, TRAPFRAME_VPN);
    HighOk(s, s', pr, tramp);
    assert PagesFor(newsz) <= PagesFor(pr.sz);
    RangeFrame(s, s', pr.root, PagesFor(newsz), PagesFor(pr.sz), 0, PagesFor(newsz));
    RangeFrame(s, s', pr.root, PagesFor(newsz), PagesFor(pr.sz), PagesFor(pr.sz), TRAPFRAME_VPN);
    AllSeen(s, pr, tramp);
    SeesFrame(s, s', pr.root, PagesFor(newsz), PagesFor(pr.sz));
    assert SpaceOf(s', pr.(sz := newsz)).pages == EagerResize(SpaceOf(s, pr), newsz).pages;
  }

  lemma SeesFrame(s: Memory, s': Memory, r: nat, lo: nat, hi: nat)
    requires Step(s, s', r, lo, hi) && IsRoot(s, r) && lo <= TRAPFRAME_VPN
    ensures IsRoot(s', r) && forall v: nat | v < lo :: Sees(s', r, v) == Sees(s, r, v)
  {
    hide Linked, AllocInv, Entry, Leaf, RefsOk, LeavesOk, Injective, Sees;
    forall v: nat | v < lo ensures Sees(s', r, v) == Sees(s, r, v) {
      assert Alike(s, s', r, v);
    }
  }

  /** Every page is as before, except free pages that became table pages of r. */
  ghost predicate OnlyTables(s: Memory, s': Memory, r: nat) {
    && s'.role.Keys == s.role.Keys
    && forall p | p in s.role && p in s.refcnt && p in s'.refcnt ::
         || (s'.role[p] == s.role[p] && s'.refcnt[p] == s.refcnt[p])
         || (s.role[p].Free? && s'.role[p].Table? && s'.role[p].root == r)
  }

  lemma GrowUndoneCounts(s: Memory, s': Memory, r: nat)
    requires Step(s, s', r, 0, 0) && HeldSame(s, s') && NoHeld(s)
    ensures OnlyTables(s, s', r)
  {
    hide Linked, AllocInv, Entry, Leaf, LeavesOk, RefsOk, Injective, Sees;
    forall p | p in s.role && p in s.refcnt && p in s'.refcnt
      ensures || (s'.role[p] == s.role[p] && s'.refcnt[p] == s.refcnt[p])
              || (s.role[p].Free? && s'.role[p].Table? && s'.role[p].root == r)
    {
      forall q: nat, v: nat ensures Maps(s', q, v, p) <==> Maps(s, q, v, p) {
        if IsRoot(s, q) && v < MAX_VPN { assert Alike(s, s', q, v); }
      }
      RefsSame(s, s', p);
      UserIffMapped(s, p);
      UserIffMapped(s', p);
      CountOf(s, p);
      CountOf(s', p);
    }
  }

  /** uvmdealloc's argument in uint64 arithmetic: a size below zero wraps around. */
  function WrapSize(sz: nat, n: int): nat
    requires -0x8000_0000 <= n < 0
  {
    if sz + n >= 0 then sz + n else sz + n + 0x1_0000_0000_0000_0000
  }

  /** The size after a successful growproc: shrinking below zero leaves it alone. */
  function NewSize(sz: nat, n: int): nat {
    if sz + n >= 0 then sz + n else sz
  }

  /** Shrinking always works; growing by n bytes needs the new pages and the page-table pages that these lack. */
  ghost predicate CanResize(s: Memory, pr: Proc, n: int) {
    n > 0 ==> CanGrow(s, pr.root, PagesFor(pr.sz), PagesFor(pr.sz + n))
  }

  /**
    growproc.  It succeeds exactly if there is enough memory.  Success resizes the one address
    space with zeroed pages.  Failure is invisible, and the pages it took are free again or
    serve as table pages of p.
   */
  method Growproc(m: Machine, p: nat, n: int) returns (ok: bool)
    requires Inv(m) && p in m.procs && -0x8000_0000 <= n < 0x8000_0000
    modifies m`mem, m`procs
    ensures Inv(m) && (ok <==> CanResize(old(m.mem), old(m.procs)[p], n))
    ensures ok ==> Views(m) == old(Views(m))[p := EagerResize(old(Views(m))[p], NewSize(old(Views(m))[p].sz, n))]
    ensures !ok ==>
              m.procs == old(m.procs) && Views(m) == old(Views(m)) && OnlyTables(old(m.mem), m.mem, m.procs[p].root)
  {
    hide VmInv, Cleared, Entry, SpaceOf, ProcInv, SameOutside, Kept, HeldSame, FreshPages, OnlyTables, CanGrow;
    ghost var s := m.mem;
    ghost var procs := m.procs;
    var pr := m.procs[p];
    ProcOf(s, procs, m.trampoline, p);
    ViewOf(s, procs, m.trampoline, p);
    var sz := pr.sz;
    if n > 0 {
      sz := Uvmalloc(m, pr.root, sz, sz + n, USER_RW);
      if sz == 0 {
        GrowFailed(s, m.mem, procs, m.trampoline, p);
        return false;
      }
      StepRoot(s, m.mem, pr.root, PagesFor(pr.sz), PagesFor(sz));
      GrewOk(s, m.mem, pr, m.trampoline, sz);
      StepWiden(s, m.mem, pr.root, PagesFor(pr.sz), PagesFor(sz), 0, TRAPFRAME_VPN);
      LocalInv(s, m.mem, procs, m.trampoline, p, pr.(sz := sz));
    } else if n < 0 {
      sz := Uvmdealloc(m, pr.root, sz, WrapSize(sz, n));
    }
    if n <= 0 && sz < pr.sz {
      StepRoot(s, m.mem, pr.root, PagesFor(sz), PagesFor(pr.sz));
      ShrankOk(s, m.mem, pr, m.trampoline, sz);
      StepWiden(s, m.mem, pr.root, PagesFor(sz), PagesFor(pr.sz), 0, TRAPFRAME_VPN);
      LocalInv(s, m.mem, procs, m.trampoline, p, pr.(sz := sz));
    } else if n <= 0 {
      ResizeNothing(s, pr, m.trampoline);
    }
    m.procs := m.procs[p := pr.(sz := sz)];
    ok := true;
  }

  lemma ViewOf(s: Memory, procs: map<nat, Proc>, tramp: nat, p: nat)
    requires ProcInv(s, procs, tramp) && p in procs
    ensures ProcOk(s, procs[p], tramp)
    ensures View(s, procs, tramp)[p] == SpaceOf(s, procs[p]) && View(s, procs, tramp)[p].sz == procs[p].sz
    ensures View(s, procs, tramp)[p := View(s, procs, tramp)[p]] == View(s, procs, tramp)
    ensures procs[p := procs[p]] == procs
  {
    hide VmInv, Mapped, Cleared, Entry;
  }

  lemma StepRoot(s: Memory, s': Memory, r: nat, lo: nat, hi: nat)
    requires Step(s, s', r, lo, hi) && IsRoot(s, r)
    ensures IsRoot(s', r)
  {
  }

  lemma ResizeNothing(s: Memory, pr: Proc, tramp: nat)
    requires ProcOk(s, pr, tramp) && VmInv(s)
    ensures EagerResize(SpaceOf(s, pr), pr.sz) == SpaceOf(s, pr)
  {
    hide VmInv, Mapped, Cleared, Entry, Sees;
    AllSeen(s, pr, tramp);
    assert EagerResize(SpaceOf(s, pr), pr.sz).pages == SpaceOf(s, pr).pages;
  }

  lemma GrowFailed(s: Memory, s': Memory, procs: map<nat, Proc>, tramp: nat, p: nat)
    requires ProcInv(s, procs, tramp) && p in procs && Step(s, s', procs[p].root, 0, 0) && HeldSame(s, s')
    ensures ProcInv(s', procs, tramp) && View(s', procs, tramp) == View(s, procs, tramp)
    ensures OnlyTables(s, s', procs[p].root)
  {
    hide VmInv, Mapped, Cleared, Entry, SpaceOf, OnlyTables, PagesFor, Alike;
    GrowUndoneCounts(s, s', procs[p].root);
    forall q | q in procs ensures ProcOk(s', procs[q], tramp) && SpaceOf(s', procs[q]) == SpaceOf(s, procs[q]) {
      ProcFrame(s, s', procs[q], tramp);
    }
    OwnersKept(s, s', procs, tramp);
  }

  // ---------------------------------------------------------------------
  // Reaping a process: freeproc

  /** A process whose trapframe page has just been freed. */
  lemma TrapframeFreed(s: Memory, tf: nat)
    requires VmInv(s) && tf in s.role && s.role[tf].Trapframe?
    ensures var f := Freed(s, tf);
            && VmInv(f) && f.lo == s.lo && f.hi == s.hi && f.role == s.role[tf := Free]
            && (forall q :: IsRoot(f, q) <==> IsRoot(s, q))
            && (forall q, v: nat | IsRoot(s, q) && v < MAX_VPN :: Alike(s, f, q, v) && Entry(f, q, v) == Entry(s, q, v))
  {
    hide Linked, ListInv, Entry, Leaf, LeavesOk, RefsOk, Injective;
    FreedQuiet(s, tf);
  }

  lemma SurvivorOk(s: Memory, s': Memory, procs: map<nat, Proc>, tramp: nat, p: nat, q: nat)
    requires ProcInv(s, procs, tramp) && p in procs && q in procs && q != p
    requires TreeGone(Freed(s, procs[p].trapframe), s', procs[p].root)
    ensures ProcOk(s', procs[q], tramp) && SpaceOf(s', procs[q]) == SpaceOf(s, procs[q])
  {
    hide Linked, AllocInv, Entry, Leaf, LeavesOk, RefsOk, Injective, Sees, Freed;
    TrapframeFreed(s, procs[p].trapframe);
    var f := Freed(s, procs[p].trapframe);
    forall v: nat | v < MAX_VPN ensures Alike(s, s', procs[q].root, v) {
      assert Alike(s, f, procs[q].root, v) && Alike(f, s', procs[q].root, v);
    }
    ProcFrame(s, s', procs[q], tramp);
  }

  /** What freeproc of p did, as far as ownership goes. */
  ghost predicate Reaped(s: Memory, s': Memory, procs: map<nat, Proc>, tramp: nat, p: nat) {
    && ProcInv(s, procs, tramp) && p in procs && procs[p].trapframe in s.refcnt
    && TreeGone(Freed(s, procs[p].trapframe), s', procs[p].root)
  }

  lemma ReapRoots(s: Memory, s': Memory, procs: map<nat, Proc>, tramp: nat, p: nat)
    requires Reaped(s, s', procs, tramp, p)
    ensures VmInv(s') && NoHeld(s')
    ensures var rest := procs - {p}; forall r :: IsRoot(s', r) ==> exists x :: x in rest && rest[x].root == r
  {
    hide Mapped, Cleared, Entry, Alike, Linked, AllocInv, LeavesOk, RefsOk, Injective, Freed;
    TrapframeFreed(s, procs[p].trapframe);
    var rest := procs - {p};
    forall r | IsRoot(s', r) ensures exists x :: x in rest && rest[x].root == r {
      var x :| x in procs && procs[x].root == r;
      assert x in rest;
    }
  }

  lemma ReapTrapframes(s: Memory, s': Memory, procs: map<nat, Proc>, tramp: nat, p: nat)
    requires Reaped(s, s', procs, tramp, p)
    ensures var rest := procs - {p};
            forall t | t in s'.role && s'.role[t].Trapframe? ::
              exists x :: x in rest && rest[x].trapframe == t && rest[x].root == s'.role[t].owner
  {
    hide Mapped, Cleared, Entry, Alike, Linked, AllocInv, LeavesOk, RefsOk, Injective, Freed;
    TrapframeFreed(s, procs[p].trapframe);
    var f := Freed(s, procs[p].trapframe);
    var rest := procs - {p};
    forall t | t in s'.role && s'.role[t].Trapframe?
      ensures exists x :: x in rest && rest[x].trapframe == t && rest[x].root == s'.role[t].owner
    {
      assert f.role[t] == s'.role[t] && t != procs[p].trapframe;
      var x :| x in procs && procs[x].trapframe == t && procs[x].root == s.role[t].owner;
      assert x in rest;
    }
  }

  lemma ReapInv(s: Memory, s': Memory, procs: map<nat, Proc>, tramp: nat, p: nat)
    requires Reaped(s, s', procs, tramp, p)
    ensures ProcInv(s', procs - {p}, tramp)
    ensures View(s', procs - {p}, tramp) == View(s, procs, tramp) - {p}
  {
    hide VmInv, Mapped, Cleared, Entry, SpaceOf, PagesFor, Freed, TreeGone, NoHeld, Alike;
    ReapRoots(s, s', procs, tramp, p);
    ReapTrapframes(s, s', procs, tramp, p);
    forall q | q in procs && q != p ensures ProcOk(s', procs[q], tramp)
      && SpaceOf(s', procs[q]) == SpaceOf(s, procs[q]) {
      SurvivorOk(s, s', procs, tramp, p, q);
    }
  }

  /** freeproc: the process is gone and nobody else sees a difference. */
  method Freeproc(m: Machine, p: nat)
    requires Inv(m) && p in m.procs
    modifies m`mem, m`procs
    ensures Inv(m) && m.procs == old(m.procs) - {p}
    ensures Views(m) == old(Views(m)) - {p}
  {
    hide VmInv, Entry, SpaceOf, Alike, PagesFor, ProcInv, TreeGone, Freed, ListInv;
    ghost var s := m.mem;
    ghost var procs := m.procs;
    var pr := m.procs[p];
    ProcOf(s, procs, m.trampoline, p);
    InvList(s);
    TrapframeFreed(s, pr.trapframe);
    m.Kfree(pr.trapframe);
    assert forall v: nat | v < MAX_VPN :: Entry(m.mem, pr.root, v) == Entry(s, pr.root, v);
    ProcFreepagetable(m, pr.root, pr.sz);
    ReapInv(s, m.mem, procs, m.trampoline, p);
    m.procs := m.procs - {p};
  }

  lemma InvList(s: Memory)
    requires VmInv(s)
    ensures ListInv(s)
  {
  }

  /** Once no process is left, no page is either: all user, table and trapframe pages are free. */
  lemma NoLeaks(s: Memory, tramp: nat)
    requires ProcInv(s, map[], tramp)
    ensures forall q | q in s.role :: s.role[q].Free? || s.role[q].Kernel?
  {
    hide Entry, Leaf, LeavesOk, Injective, ListInv, RefsOk;
    forall q | q in s.role ensures s.role[q].Free? || s.role[q].Kernel? {
      UserIffMapped(s, q);
      assert forall r, v :: !Maps(s, r, v, q);
      assert Refs(s, q) == {};
      if s.role[q].Table? { TableHasRoot(s, q); }
    }
  }

  lemma TableHasRoot(s: Memory, t: nat)
    requires TreeInv(s) && IsTable(s, t)
    ensures IsRoot(s, s.role[t].root)
  {
    assert Up(s, t);
    if s.role[t].level < 2 {
      var a := s.role[t].parent;
      assert Up(s, a);
      if s.role[a].level < 2 { assert Up(s, s.role[a].parent); }
    }
  }

  // ---------------------------------------------------------------------
  // Whole runs

  datatype Op =
    | OpFork(p: nat)
    | OpStore(p: nat, va: nat, value: byte)
    | OpCopyOut(p: nat, va: nat, src: seq<byte>)
    | OpCopyIn(p: nat, va: nat, len: nat)
    | OpGrow(p: nat, n: int)
    | OpExit(p: nat)

  /** What the caller of an operation learns. */
  datatype Reply =
    | Child(pid: nat)
    | Done
    | Read(data: seq<byte>)
    | Failed
    | KernelPanic

  type Users = map<nat, Space>

  /**
    A copy that stopped early has written the part of src before a page boundary; the next
    page is one the process may not write, or memory has run out.
   */
  ghost predicate PartialCopy(view: Users, p: nat, va: nat, src: seq<byte>, n: nat, full: bool, view': Users)
    requires p in view
  {
    && n < |src| && (n == 0 || (va + n) % PAGE_BYTES == 0) && view' == EagerPoke(view, p, va, src[..n])
    && MayWrite(view[p], va, n) && (full || !CanWrite(view[p], (va + n) / PAGE_BYTES))
  }

  /**
    The memory that an operation finds: the number of free pages, the page-table pages that a
    growth lacks, and whether memory has run out at its end.
   */
  datatype Stock = Stock(free: nat, lack: nat, full: bool)

  ghost function StockOf(s: Memory, procs: map<nat, Proc>, op: Op, s': Memory): Stock
    requires op.p in procs
  {
    var pr := procs[op.p];
    Stock(|s.freelist|, if op.OpGrow? && op.n > 0 then Lacking(s, pr.root, PagesFor(pr.sz), PagesFor(pr.sz + op.n))
      else 0,
          s'.freelist == [])
  }

  /**
    A step of the machine without sharing, in which fork copies every page.  The replies are
    determined by the view and by the memory there is: fork fails exactly with a full process
    table or too few free pages, sbrk exactly with too few free pages.
   */
  ghost predicate EagerStep(view: Users, op: Op, reply: Reply, stock: Stock, view': Users)
    requires op.p in view
  {
    match op
    case OpFork(p) =>
      && (reply.Child? <==> (exists i: nat :: i < NPROC && i !in view) && stock.free >= ForkPages(PagesFor(view[p].sz)))
      && if reply.Child? then reply.pid !in view && view' == EagerFork(view, p, reply.pid)
         else reply == Failed && view' == view
    case OpStore(p, va, value) =>
      if CanWrite(view[p], va / PAGE_BYTES) then reply == Done && view' == EagerPoke(view, p, va, [value])
      else reply == Failed && view' == view
    case OpCopyOut(p, va, src) =>
      if reply == Done then MayWrite(view[p], va, |src|) && view' == EagerPoke(view, p, va, src)
      else reply == Failed && exists n :: PartialCopy(view, p, va, src, n, stock.full, view')
    case OpCopyIn(p, va, len) =>
      && view' == view
      && if forall a: nat | va <= a < va + len :: CanRead(view[p], a) then
           && reply.Read? && |reply.data| == len
           && (forall a: nat | va <= a < va + len :: reply.data[a - va] == ReadByte(view[p], a))
         else reply == Failed
    case OpGrow(p, n) =>
      && (reply == Done <==> n <= 0 || stock.free >= PagesFor(view[p].sz + n) - PagesFor(view[p].sz) + stock.lack)
      && if reply == Done then view' == view[p := EagerResize(view[p], NewSize(view[p].sz, n))]
         else reply == Failed && view' == view
    case OpExit(p) => reply == Done && view' == view - {p}
  }

  lemma ViewKeys(s: Memory, procs: map<nat, Proc>, tramp: nat)
    requires ProcInv(s, procs, tramp)
    ensures View(s, procs, tramp).Keys == procs.Keys
  {
  }

  lemma ViewSize(s: Memory, procs: map<nat, Proc>, tramp: nat, p: nat)
    requires ProcInv(s, procs, tramp) && p in procs
    ensures p in View(s, procs, tramp) && View(s, procs, tramp)[p].sz == procs[p].sz
  {
    hide VmInv, Mapped, Cleared, Entry;
  }

  /**
    One operation on the shared memory is one step of the machine without sharing.  The
    kernel panics exactly on the stores of StorePanics, and has then changed nothing.
   */
  method Execute(m: Machine, op: Op) returns (reply: Reply)
    requires Inv(m) && op.p in m.procs && (op.OpGrow? ==> -0x8000_0000 <= op.n < 0x8000_0000)
    modifies m`mem, m`procs
    ensures Inv(m)
    ensures reply == KernelPanic <==> op.OpStore? && StorePanics(old(m.mem), old(m.procs)[op.p].root, op.va)
    ensures reply == KernelPanic ==> Stuck(m, op) && Views(m) == old(Views(m))
    ensures reply != KernelPanic ==>
              EagerStep(old(Views(m)), op, reply, StockOf(old(m.mem), old(m.procs), op, m.mem), Views(m))
  {
    hide ProcInv, View, EagerPoke, EagerResize, CanWrite, CanRead, ReadByte, SameCounts, OnlyTables, MayWrite,
      StorePanics, Lacking,
      ForkPages;
    ghost var before := Views(m);
    ViewKeys(m.mem, m.procs, m.trampoline);
    ViewSize(m.mem, m.procs, m.trampoline, op.p);
    match op
    case OpFork(p) =>
      var child := DoFork(m, p);
      reply := if child.Some? then Child(child.value) else Failed;
    case OpStore(p, va, value) =>
      var out := Store(m, p, va, value);
      reply := if out == Stored then Done else if out == Killed then Failed else KernelPanic;
    case OpCopyOut(p, va, src) =>
      var ok, n := CopyTo(m, p, va, src);
      assert src[..|src|] == src;
      assert !ok ==> PartialCopy(before, p, va, src, n, m.mem.freelist == [], Views(m));
      reply := if ok then Done else Failed;
    case OpCopyIn(p, va, len) =>
      var data := CopyFrom(m, p, va, len);
      reply := if data.Some? then Read(data.value) else Failed;
    case OpGrow(p, n) =>
      var ok := Growproc(m, p, n);
      reply := if ok then Done else Failed;
    case OpExit(p) =>
      Freeproc(m, p);
      reply := Done;
  }

  /** A store at which the machine stops: the fault handler goes on after an error. */
  ghost predicate Stuck(m: Machine, op: Op)
    reads m
    requires Inv(m)
  {
    && op.OpStore? && op.p in m.procs && op.p in Views(m) && StorePanics(m.mem, m.procs[op.p].root, op.va)
    && (m.mem.freelist == [] || !CanWrite(Views(m)[op.p], op.va / PAGE_BYTES))
  }

  /** The machine between two operations. */
  datatype Snap = Snap(mem: Memory, procs: map<nat, Proc>)

  /**
    views is a run of the machine without sharing on the first |replies| operations, and
    snaps are the states of the machine with sharing, each seen as the view of its place.
   */
  ghost predicate EagerRun(ops: seq<Op>, replies: seq<Reply>, views: seq<Users>, snaps: seq<Snap>, tramp: nat) {
    && |replies| <= |ops| && |views| == |replies| + 1 && |snaps| == |views|
    && (forall i | 0 <= i < |snaps| ::
          ProcInv(snaps[i].mem, snaps[i].procs, tramp) && views[i] == View(snaps[i].mem, snaps[i].procs, tramp))
    && (forall i | 0 <= i < |replies| ::
          && ops[i].p in views[i] && ops[i].p in snaps[i].procs
          && EagerStep(views[i], ops[i], replies[i], StockOf(snaps[i].mem, snaps[i].procs, ops[i], snaps[i + 1].mem),
            views[i + 1]))
  }

  /**
    Copy-on-write refines eager copying over whole runs: whatever the processes do,
    the replies and the views are those of a run of the machine without sharing.
    The run ends early only at an operation of a process that does not exist, or at a
    store of StorePanics, where the machine still shows the last view.
   */
  method Run(m: Machine, ops: seq<Op>) returns (replies: seq<Reply>, ghost views: seq<Users>, ghost snaps: seq<Snap>)
    requires Inv(m) && forall i | 0 <= i < |ops| && ops[i].OpGrow? :: -0x8000_0000 <= ops[i].n < 0x8000_0000
    modifies m`mem, m`procs
    ensures Inv(m) && EagerRun(ops, replies, views, snaps, m.trampoline)
    ensures views[0] == old(Views(m)) && views[|replies|] == Views(m)
    ensures snaps[0] == Snap(old(m.mem), old(m.procs))
    ensures |replies| == |ops| ==> snaps[|ops|] == Snap(m.mem, m.procs)
    ensures |replies| < |ops| ==> ops[|replies|].p !in m.procs || Stuck(m, ops[|replies|])
  {
    hide ProcInv, View, EagerStep, Stuck, StorePanics, StockOf;
    replies := [];
    views := [Views(m)];
    snaps := [Snap(m.mem, m.procs)];
    for i := 0 to |ops|
      invariant |replies| == i && Inv(m) && EagerRun(ops, replies, views, snaps, m.trampoline)
      invariant views[0] == old(Views(m)) && views[i] == Views(m)
      invariant snaps[0] == Snap(old(m.mem), old(m.procs)) && snaps[i] == Snap(m.mem, m.procs)
    {
      ViewKeys(m.mem, m.procs, m.trampoline);
      if ops[i].p !in m.procs {
        return;
      }
      var reply := Execute(m, ops[i]);
      if reply == KernelPanic {
        return;
      }
      replies := replies + [reply];
      views := views + [Views(m)];
      snaps := snaps + [Snap(m.mem, m.procs)];
    }
  }

  lemma StepIsolation(view: Users, op: Op, reply: Reply, stock: Stock, view': Users, q: nat)
    requires op.p in view && q in view && q != op.p && EagerStep(view, op, reply, stock, view')
    ensures q in view' && view'[q] == view[q]
  {
  }

  /**
    Isolation: in a run of the machine with sharing, as long as process q does nothing, what
    it sees does not change, whatever the others do.
   */
  lemma {:induction false} Isolation(ops: seq<Op>, replies: seq<Reply>, views: seq<Users>, snaps: seq<Snap>,
                                     tramp: nat, i: nat, j: nat, q: nat)
    requires EagerRun(ops, replies, views, snaps, tramp) && i <= j <= |replies|
    requires q in snaps[i].procs && forall k | i <= k < j :: ops[k].p != q
    ensures q in views[i] && q in snaps[j].procs && q in views[j] && views[j][q] == views[i][q]
    ensures SpaceOf(snaps[j].mem, snaps[j].procs[q]) == SpaceOf(snaps[i].mem, snaps[i].procs[q])
    decreases j - i
  {
    hide EagerStep, SpaceOf, ProcOk, VmInv;
    if i < j {
      Isolation(ops, replies, views, snaps, tramp, i, j - 1, q);
      StepIsolation(views[j - 1], ops[j - 1], replies[j - 1],
        StockOf(snaps[j - 1].mem, snaps[j - 1].procs, ops[j - 1], snaps[j].mem), views[j], q);
    }
    ViewKeys(snaps[i].mem, snaps[i].procs, tramp);
    ViewKeys(snaps[j].mem, snaps[j].procs, tramp);
  }

  /** What copyout has put into a process's memory, copyin reads back. */
  lemma CopyOutIn(view: Users, p: nat, va: nat, src: seq<byte>, stock: Stock, view': Users, reply: Reply,
                  stock': Stock, view'': Users)
    requires p in view && forall v | v in view[p].pages :: |view[p].pages[v].bytes| == PAGE_BYTES
    requires EagerStep(view, OpCopyOut(p, va, src), Done, stock, view')
    requires p in view' && EagerStep(view', OpCopyIn(p, va, |src|), reply, stock', view'')
    ensures reply == Read(src)
  {
    forall a: nat | va <= a < va + |src| ensures CanRead(view'[p], a) && ReadByte(view'[p], a) == src[a - va] {
      assert CanWrite(view[p], a / PAGE_BYTES);
      assert a / PAGE_BYTES * PAGE_BYTES + a % PAGE_BYTES == a;
    }
    forall k | 0 <= k < |src| ensures reply.data[k] == src[k] {
      var a: nat := va + k;
      assert reply.data[a - va] == ReadByte(view'[p], a);
    }
    assert reply.data == src;
  }

  lemma BootInv(s: Memory, tramp: nat)
    requires AllocInv(s) && forall p | p in s.role :: s.role[p].Free?
    ensures ProcInv(s, map[], tramp)
  {
    assert forall r :: !IsRoot(s, r);
  }

  const USER_RWX: Pte := Pte(true, true, true, true, true, false, 0)

  /** The page that holds the first program: initcode, then zeros. */
  function InitPage(code: seq<byte>): PageView
    requires |code| < PAGE_BYTES
  {
    PageView(Splice(Filled(0), 0, code), true, true, true, true)
  }

  lemma FirstProcess(s: Memory, b: Memory, tramp: nat, r: nat, tf: nat, code: seq<byte>)
    requires ProcInv(s, map[], tramp) && Beside(s, b, r) && HeldPlus(s, b, tf) && |code| < PAGE_BYTES
    requires IsRoot(b, r) && Mapped(b, r, 0, 1) && Cleared(b, r, 1, TRAPFRAME_VPN)
    requires Entry(b, r, TRAPFRAME_VPN) == TrapframePte(tf) && Entry(b, r, TRAMPOLINE_VPN) == TrampolinePte(tramp)
    requires Sees(b, r, 0) == Some(InitPage(code))
    ensures var b', procs' := Adopted(b, tf, r), map[0 := Proc(r, PAGE_BYTES, tf)];
            && ProcInv(b', procs', tramp)
            && View(b', procs', tramp) == map[0 := Fork.Space(PAGE_BYTES, map[0 := InitPage(code)])]
  {
    hide Linked, AllocInv, Entry, Leaf, LeavesOk, RefsOk, Injective, Sees, InitPage;
    var b', child := Adopted(b, tf, r), Proc(r, PAGE_BYTES, tf);
    var none: map<nat, Proc> := map[];
    AdoptedKeeps(b, tf, r);
    assert forall v: nat | v < MAX_VPN :: Alike(b, b', r, v) && Entry(b', r, v) == Entry(b, r, v);
    assert Alike(b, b', r, 0);
    assert none[0 := child] == map[0 := child];
    AdoptedRoots(s, b, none, tramp, r, tf);
    ForkOwners(s, b, none, tramp, 0, child);
    assert PagesFor(PAGE_BYTES) == 1;
    assert SpaceOf(b', child).pages == map[0 := InitPage(code)];
  }

  /** The cost of the first page of an empty tree: the page and two page-table pages. */
  lemma FirstPageCost(a: Memory, r: nat)
    requires Spots(a, r) == TopSpots()
    ensures Lacking(a, r, 0, 1) == 2
  {
    ForkTables(a, r, 1);
  }

  /**
    userinit: one process with one page that holds the first program.  The kernel has no way
    on without it, and it works exactly if seven pages are free.
   */
  method Userinit(m: Machine, code: seq<byte>) returns (ok: bool)
    requires Inv(m) && m.procs == map[] && |code| < PAGE_BYTES
    modifies m`mem, m`procs
    ensures ok <==> |old(m.mem).freelist| >= 7
    ensures ok ==> Inv(m) && Views(m) == map[0 := Fork.Space(PAGE_BYTES, map[0 := InitPage(code)])]
  {
    hide Spots, TopSpots, Lacking, NoPage, PageCharged, Linked, AllocInv, Entry, Leaf, LeavesOk, RefsOk, Injective,
      Sees, SameOutside, Alike, Apart, HeldPlus, HeldSame, ProcInv, Beside, View;
    ghost var s := m.mem;
    InvHeld(s, m.procs, m.trampoline);
    var tf, r := AllocTree(m);
    if r == 0 {
      return false;
    }
    ghost var a := m.mem;
    BesideRoot(s, a, r);
    FirstPageCost(a, r);
    ok := GrowPage(m, r, 0, USER_RWX);
    FirstPageCharged(a, m.mem, r);
    if !ok {
      return;
    }
    ghost var b := m.mem;
    BesideStep(s, a, b, r, 0, 1);
    HeldPlusSame(s, a, b, tf);
    RangeFrame(a, b, r, 0, 1, 1, TRAPFRAME_VPN);
    HighEntryFrame(a, b, r, 0, 1);
    FirstPrivate(b, r, tf, m.trampoline);
    WritePage(m, r, 0, 0, code);
    ghost var c := m.mem;
    BesideStep(s, b, c, r, 0, 1);
    HeldPlusSame(s, b, c, tf);
    RangeFrame(b, c, r, 0, 1, 1, TRAPFRAME_VPN);
    HighEntryFrame(b, c, r, 0, 1);
    SeenMapped(c, r, 0);
    FirstProcess(s, c, m.trampoline, r, tf, code);
    m.mem := m.mem.(role := m.mem.role[tf := Trapframe(r)]);
    m.procs := map[0 := Proc(r, PAGE_BYTES, tf)];
  }

  lemma FirstPageCharged(a: Memory, b: Memory, r: nat)
    ensures NoPage(a, r, 0) ==> |a.freelist| <= Lacking(a, r, 0, 1)
    ensures PageCharged(a, b, r, 0) && Bounds(b) && TreeInv(b) && IsRoot(b, r) && Entry(b, r, 0).v ==>
              |a.freelist| > Lacking(a, r, 0, 1)
  {
    hide Lacking, Linked, Entry;
    assert NoPage(a, r, 0) ==> Spare(a, r, 0, 1) <= 0;
    if PageCharged(a, b, r, 0) && Bounds(b) && TreeInv(b) && IsRoot(b, r) && Entry(b, r, 0).v {
      EntryLeaf(b, r, 0);
      NothingLacking(b, r, 0, 1);
      assert Spare(b, r, 0, 1) == Spare(a, r, 0, 1) - 1;
    }
  }

  lemma EntryLeaf(s: Memory, r: nat, v: nat)
    requires Bounds(s) && r in s.role && Entry(s, r, v).v
    ensures Leaf(s, r, v).Some?
  {
  }

  lemma SeenMapped(s: Memory, r: nat, v: nat)
    requires Bounds(s) && r in s.role
    ensures Sees(s, r, v).Some? ==> Entry(s, r, v).v
  {
  }

  lemma FirstPrivate(s: Memory, r: nat, tf: nat, tramp: nat)
    requires Bounds(s) && r in s.role
    requires Entry(s, r, TRAPFRAME_VPN) == TrapframePte(tf) && Entry(s, r, TRAMPOLINE_VPN) == TrampolinePte(tramp)
    ensures HighPrivate(s, r)
  {
    hide Entry;
  }

  // ---------------------------------------------------------------------
  // What the counts say in every state

  /**
    A page's count is the number of user entries that map it, or one for its kernel owner;
    it is zero exactly on the free list, where the page is once.  A writable entry is the
    only one that maps its page, and it is not marked copy-on-write.
   */
  lemma ExactCounts(s: Memory, procs: map<nat, Proc>, tramp: nat, q: nat)
    requires ProcInv(s, procs, tramp) && q in s.role
    ensures s.refcnt[q] == if s.role[q].Free? then 0 else if s.role[q].User? then |Refs(s, q)| else 1
    ensures s.refcnt[q] == 0 <==> q in s.freelist
    ensures multiset(s.freelist)[q] == if q in s.freelist then 1 else 0
    ensures forall r: nat, v: nat | Maps(s, r, v, q) && Entry(s, r, v).w ::
              s.refcnt[q] == 1 && !Entry(s, r, v).cow && Refs(s, q) == {(r, v)}
  {
    hide Linked, Entry, Injective;
    NoDupMultiset(s.freelist);
    forall r: nat, v: nat | Maps(s, r, v, q) && Entry(s, r, v).w
      ensures s.refcnt[q] == 1 && !Entry(s, r, v).cow && Refs(s, q) == {(r, v)}
    {
      assert LeafOk(s, r, v);
      assert (r, v) in Refs(s, q) && |Refs(s, q)| == 1;
      Singleton(Refs(s, q), (r, v));
    }
  }

  lemma Singleton<T>(xs: set<T>, x: T)
    requires x in xs && |xs| == 1
    ensures xs == {x}
  {
    assert |xs - {x}| == 0;
  }

  /** Only pages below a process's size are mapped: each counted entry belongs to a process in the table. */
  lemma MappedBelowSize(s: Memory, procs: map<nat, Proc>, tramp: nat, r: nat, v: nat, q: nat)
    requires ProcInv(s, procs, tramp) && Maps(s, r, v, q)
    ensures exists p :: p in procs && procs[p].root == r && v < PagesFor(procs[p].sz)
  {
    hide Linked, Entry, Injective, VmInv;
    var p :| p in procs && procs[p].root == r;
    assert ProcOk(s, procs[p], tramp);
  }
}
