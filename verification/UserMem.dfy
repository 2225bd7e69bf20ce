/**
  Reading and writing user memory: breaking copy-on-write pages (kernel/trap.c,
  kernel/vm.c), copyout, copyin, and a store instruction with its page fault.
 */
module UserMem {
  import opened Prelude
  import opened Sv39
  import opened Kalloc
  import opened PageTable
  import opened PageWalk
  import opened Cow
  import opened Vm

  /** The page has become private and writable, and the process sees the same page as before. */
  ghost predicate Broken(s: Memory, s': Memory, r: nat, v: nat) {
    && Step(s, s', r, v, v + 1) && HeldSame(s, s') && IsRoot(s, r) && v < TRAPFRAME_VPN
    && Sees(s', r, v) == Sees(s, r, v)
    && Entry(s', r, v).v && Entry(s', r, v).w && Entry(s', r, v).u == Entry(s, r, v).u
  }

  /** The state when the copy is in hand: kalloc and memmove. */
  ghost function Copied(s: Memory, q: nat): Memory
    requires s.freelist != [] && q in s.bytes && q in s.ptes
  {
    var c, t := s.freelist[0], Taken(s, Held);
    t.(bytes := t.bytes[c := s.bytes[q]], ptes := t.ptes[c := s.ptes[q]])
  }

  lemma CopiedStep(s: Memory, q: nat, r: nat)
    requires VmInv(s) && s.freelist != [] && q in s.role && s.role[q].User?
    ensures Step(s, Copied(s, q), r, 0, 0) && SameMaps(s, Copied(s, q))
    ensures s.freelist[0] != q && Copied(s, q).bytes[s.freelist[0]] == s.bytes[q]
    ensures Copied(s, q).role == s.role[s.freelist[0] := Held]
  {
    hide Linked, ListInv, Entry, Leaf, LeavesOk, RefsOk, Injective, SameOutside;
    FirstFree(s);
    TakenStep(s, r);
    TakenQuiet(s);
    var c, t := s.freelist[0], Taken(s, Held);
    HeldWriteStep(t, c, s.bytes[q], s.ptes[q], r);
    HeldWriteQuiet(t, c, s.bytes[q], s.ptes[q]);
    StepTransitive(s, t, Copied(s, q), r, 0, 0);
  }

  lemma BrokenChain(s: Memory, r: nat, v: nat)
    requires VmInv(s) && IsRoot(s, r) && v < TRAPFRAME_VPN && s.freelist != []
    requires Entry(s, r, v).v && Entry(s, r, v).cow
    ensures var q := Entry(s, r, v).ppn;
            && q in s.role && s.role[q].User?
            && var h := Copied(s, q);
               && VmInv(h) && IsRoot(h, r) && Entry(h, r, v) == Entry(s, r, v) && Leaf(h, r, v).Some?
               && h.bytes[s.freelist[0]] == s.bytes[q] && s.freelist[0] in h.role && h.role[s.freelist[0]].Held?
  {
    hide Linked, ListInv, Entry, Leaf, LeavesOk, RefsOk, Injective, SameOutside;
    LeafReadable(s, r, v);
    FirstFree(s);
    EntryHasLeaf(s, r, v);
    CopiedStep(s, Entry(s, r, v).ppn, r);
  }

  /** Unmapping the shared page leaves the copy in hand untouched. */
  lemma CopyInHand(s: Memory, h: Memory, r: nat, v: nat, c: nat)
    requires VmInv(h) && IsRoot(h, r) && v < TRAPFRAME_VPN && Leaf(h, r, v).Some? && Entry(h, r, v).v
    requires c in h.role && h.role[c].Held?
    requires s.role.Keys == h.role.Keys && forall p | p in h.role :: h.role[p].Held? <==> p == c || s.role[p].Held?
    ensures Entry(h, r, v).ppn in h.role
    ensures var u := UnmapUser(h, r, v);
            && c in u.role && u.role[c].Held? && c in u.bytes && u.bytes[c] == h.bytes[c] && u.role.Keys == s.role.Keys
            && forall p | p in u.role :: u.role[p].Held? <==> p == c || s.role[p].Held?
  {
    LeafReadable(h, r, v);
    hide Linked, Entry, Leaf, LeavesOk, RefsOk, Injective;
  }

  lemma BreakDone(s: Memory, u: Memory, r: nat, v: nat)
    requires VmInv(s) && IsRoot(s, r) && v < TRAPFRAME_VPN && s.freelist != []
    requires Entry(s, r, v).v && Entry(s, r, v).cow && Entry(s, r, v).ppn in s.role
    requires var h := Copied(s, Entry(s, r, v).ppn); Step(h, u, r, v, v + 1)
    requires u.role.Keys == s.role.Keys && s.freelist[0] in u.role && u.role[s.freelist[0]].Held?
    requires u.bytes[s.freelist[0]] == s.bytes[Entry(s, r, v).ppn]
    requires forall p | p in u.role :: u.role[p].Held? <==> p == s.freelist[0] || s.role[p].Held?
    requires s.freelist[0] in s.role && s.role[s.freelist[0]].Free?
    requires Leaf(u, r, v).Some? && Entry(u, r, v) == ZERO_PTE
    ensures Broken(s, MapFresh(u, r, v, Break(Entry(s, r, v), s.freelist[0])), r, v)
  {
    hide Linked, AllocInv, Entry, Leaf, LeavesOk, RefsOk, Injective, SameOutside;
    var e := Entry(s, r, v);
    LeafReadable(s, r, v);
    CopiedStep(s, e.ppn, r);
    var h := Copied(s, e.ppn);
    StepWiden(s, h, r, 0, 0, v, v + 1);
    StepTransitive(s, h, u, r, v, v + 1);
    var e' := Break(e, s.freelist[0]);
    MapFreshStep(u, r, v, e');
    StepTransitive(s, u, MapFresh(u, r, v, e'), r, v, v + 1);
  }

  /**
    The copy-on-write break shared by usertrap and copyout: copy the page, drop this
    process's reference to the old one, map the copy writable.  With no memory left
    nothing changes; the remapping itself cannot fail.
   */
  method BreakCow(m: Machine, r: nat, v: nat) returns (ok: bool)
    requires VmInv(m.mem) && IsRoot(m.mem, r) && v < TRAPFRAME_VPN
    requires Entry(m.mem, r, v).v && Entry(m.mem, r, v).cow
    modifies m`mem
    ensures ok <==> old(m.mem).freelist != []
    ensures ok ==> Broken(old(m.mem), m.mem, r, v)
    ensures !ok ==> m.mem == old(m.mem).(refcnt := old(m.mem).refcnt[0 := 1]) && Step(old(m.mem), m.mem, r, 0, 0)
  {
    hide Linked, ListInv, Entry, Leaf, LeavesOk, RefsOk, Injective, SameOutside, SameMaps, OwnedKept, Sees;
    ghost var s := m.mem;
    EntryHasLeaf(s, r, v);
    LeafReadable(s, r, v);
    var slot := Walk(m, r, v, false);
    var (t, i) := slot.value;
    var pte := m.mem.ptes[t][i];
    var page, words := m.mem.bytes[pte.ppn], m.mem.ptes[pte.ppn];
    var mem := m.Kalloc(Held);
    if mem == 0 {
      NullStep(s, r);
      return false;
    }
    m.mem := m.mem.(bytes := m.mem.bytes[mem := page], ptes := m.mem.ptes[mem := words]);
    RemapCopy(m, r, v, mem, pte, s);
    ok := true;
  }

  method RemapCopy(m: Machine, r: nat, v: nat, mem: nat, pte: Pte, ghost s: Memory)
    requires VmInv(s) && IsRoot(s, r) && v < TRAPFRAME_VPN && s.freelist != [] && mem == s.freelist[0]
    requires pte == Entry(s, r, v) && pte.v && pte.cow && pte.ppn in s.role && m.mem == Copied(s, pte.ppn)
    modifies m`mem
    ensures Broken(s, m.mem, r, v)
  {
    hide Linked, AllocInv, Entry, Leaf, LeavesOk, RefsOk, Injective, SameOutside, Grown, Sees, Kept;
    ghost var h := m.mem;
    FirstFree(s);
    BrokenChain(s, r, v);
    CopiedStep(s, pte.ppn, r);
    CopyInHand(s, h, r, v, mem);
    UnmapPage(m, r, v, true);
    ghost var u := m.mem;
    BreakDone(s, u, r, v);
    var flags := pte.(cow := false, w := true);
    var ok, g := MapPage(m, r, v, mem, flags);
    m.mem := m.mem.(role := m.mem.role[mem := User]);
    assert m.mem == MapFresh(u, r, v, Break(pte, mem));
  }

  // ---------------------------------------------------------------------
  // Writing bytes

  /** Page v of a memory image after data is written at byte address va. */
  function PokeBytes(bytes: seq<byte>, v: nat, va: nat, data: seq<byte>): seq<byte>
    requires |bytes| == PAGE_BYTES
  {
    seq(PAGE_BYTES, k requires 0 <= k < PAGE_BYTES =>
      if va <= v * PAGE_BYTES + k < va + |data| then data[v * PAGE_BYTES + k - va] else bytes[k])
  }

  ghost function PokePage(p: Option<PageView>, v: nat, va: nat, data: seq<byte>): Option<PageView> {
    if p.Some? && |p.value.bytes| == PAGE_BYTES
    then Some(p.value.(bytes := PokeBytes(p.value.bytes, v, va, data)))
    else p
  }

  /** The process of r sees data written at va, and nobody sees anything else. */
  ghost predicate Poked(s: Memory, s': Memory, r: nat, va: nat, data: seq<byte>) {
    && Step(s, s', r, 0, TRAPFRAME_VPN) && HeldSame(s, s') && IsRoot(s, r)
    && forall v: nat | v < TRAPFRAME_VPN :: Sees(s', r, v) == PokePage(Sees(s, r, v), v, va, data)
  }

  /** Overwrites part of one page. */
  function Splice(bytes: seq<byte>, off: nat, data: seq<byte>): seq<byte>
    requires off + |data| <= |bytes|
  {
    bytes[..off] + data + bytes[off + |data|..]
  }

  /** Writing the next chunk in its page extends what has been written so far. */
  lemma PokeNext(bytes: seq<byte>, v: nat, va: nat, data: seq<byte>, n: nat, k: nat)
    requires |bytes| == PAGE_BYTES && n + k <= |data| && k <= PAGE_BYTES - (va + n) % PAGE_BYTES
    ensures var sofar := PokeBytes(bytes, v, va, data[..n]);
            PokeBytes(bytes, v, va, data[..n + k]) ==
            if v == (va + n) / PAGE_BYTES then Splice(sofar, (va + n) % PAGE_BYTES, data[n..n + k]) else sofar
  {
    var sofar := PokeBytes(bytes, v, va, data[..n]);
    var page, off := (va + n) / PAGE_BYTES, (va + n) % PAGE_BYTES;
    var next := PokeBytes(bytes, v, va, data[..n + k]);
    if v == page {
      var spliced := Splice(sofar, off, data[n..n + k]);
      assert |spliced| == PAGE_BYTES;
      forall j | 0 <= j < PAGE_BYTES ensures next[j] == spliced[j] {
        assert v * PAGE_BYTES + j - va == n + (j - off);
      }
      assert next == spliced;
    } else {
      assert next == sofar;
    }
  }

  lemma PokeNothing(bytes: seq<byte>, v: nat, va: nat)
    requires |bytes| == PAGE_BYTES
    ensures PokeBytes(bytes, v, va, []) == bytes
  {
    assert PokeBytes(bytes, v, va, []) == bytes;
  }

  /** The trapframe and trampoline pages are neither accessible to the user nor copy-on-write. */
  ghost predicate HighPrivate(s: Memory, r: nat)
    requires Bounds(s) && r in s.role
  {
    forall v: nat | TRAPFRAME_VPN <= v < MAX_VPN :: !Entry(s, r, v).u && !Entry(s, r, v).cow
  }

  lemma HighFrame(s: Memory, s': Memory, r: nat, lo: nat, hi: nat)
    requires Step(s, s', r, lo, hi) && IsRoot(s, r) && hi <= TRAPFRAME_VPN && HighPrivate(s, r)
    ensures IsRoot(s', r) && HighPrivate(s', r)
  {
    hide Linked, AllocInv, Entry, Leaf, LeavesOk, RefsOk, Injective, Sees;
    forall v: nat | TRAPFRAME_VPN <= v < MAX_VPN ensures !Entry(s', r, v).u && !Entry(s', r, v).cow {
      assert Alike(s, s', r, v);
    }
  }

  lemma UserWriteStep(s: Memory, r: nat, v: nat, data: seq<byte>)
    requires VmInv(s) && IsRoot(s, r) && v < TRAPFRAME_VPN && Entry(s, r, v).v && Entry(s, r, v).w
    requires |data| == PAGE_BYTES
    ensures Entry(s, r, v).ppn in s.role
    ensures var s' := s.(bytes := s.bytes[Entry(s, r, v).ppn := data]);
            && Step(s, s', r, v, v + 1) && Sees(s, r, v).Some?
            && Sees(s', r, v) == Some(Sees(s, r, v).value.(bytes := data))
  {
    hide Linked, ListInv, Entry, Leaf, LeavesOk, RefsOk, Injective;
    UserWrite(s, r, v, data);
    LeafReadable(s, r, v);
    BytesShape(s, Entry(s, r, v).ppn, data);
  }

  /** A user page the process may write, as it appears to the process. */
  ghost predicate Writable(s: Memory, r: nat, v: nat)
    requires Bounds(s) && r in s.role
  {
    v < TRAPFRAME_VPN && Sees(s, r, v).Some? && Sees(s, r, v).value.u && Sees(s, r, v).value.w
  }

  /** chunk has been written at offset off of page v, and nothing else has changed. */
  ghost predicate PageWritten(s: Memory, s': Memory, r: nat, v: nat, off: nat, chunk: seq<byte>) {
    && Step(s, s', r, v, v + 1) && HeldSame(s, s') && IsRoot(s, r) && Writable(s, r, v)
    && off + |chunk| <= |Sees(s, r, v).value.bytes|
    && Sees(s', r, v) == Some(Sees(s, r, v).value.(bytes := Splice(Sees(s, r, v).value.bytes, off, chunk)))
  }

  /** What the write leaves behind when it is refused. */
  ghost predicate PageRefused(s: Memory, s': Memory, r: nat, v: nat) {
    && Step(s, s', r, 0, 0) && HeldSame(s, s') && IsRoot(s, r) && s'.freelist == s.freelist
    && (!Writable(s, r, v) || s.freelist == [])
  }

  lemma WritableEntry(s: Memory, r: nat, v: nat)
    requires VmInv(s) && IsRoot(s, r) && v < MAX_VPN && HighPrivate(s, r)
    ensures var e := Entry(s, r, v); Writable(s, r, v) <==> e.v && e.u && (e.w || e.cow)
  {
    hide Linked, AllocInv, Entry, Leaf, RefsOk, Injective;
    assert LeafOk(s, r, v);
  }

  lemma WrittenAfterBreak(s: Memory, b: Memory, s': Memory, r: nat, v: nat, off: nat, chunk: seq<byte>)
    requires b == s || Broken(s, b, r, v)
    requires PageWritten(b, s', r, v, off, chunk)
    ensures PageWritten(s, s', r, v, off, chunk)
  {
    hide Linked, AllocInv, Entry, Leaf, LeavesOk, RefsOk, Injective, SameOutside, Sees;
    if b != s {
      StepTransitive(s, b, s', r, v, v + 1);
    }
  }

  /** memmove of chunk into a page that is mapped writable. */
  method WritePage(m: Machine, r: nat, v: nat, off: nat, chunk: seq<byte>)
    requires VmInv(m.mem) && IsRoot(m.mem, r) && v < TRAPFRAME_VPN && HighPrivate(m.mem, r)
    requires Entry(m.mem, r, v).v && Entry(m.mem, r, v).w && Entry(m.mem, r, v).u && off + |chunk| <= PAGE_BYTES
    modifies m`mem
    ensures PageWritten(old(m.mem), m.mem, r, v, off, chunk)
  {
    hide Linked, ListInv, Entry, Leaf, LeavesOk, RefsOk, Injective, SameOutside, SameMaps, OwnedKept;
    ghost var s := m.mem;
    EntryHasLeaf(s, r, v);
    LeafReadable(s, r, v);
    WritableEntry(s, r, v);
    var slot := Walk(m, r, v, false);
    var (t, i) := slot.value;
    var pa := m.mem.ptes[t][i].ppn;
    var page := Splice(m.mem.bytes[pa], off, chunk);
    UserWriteStep(s, r, v, page);
    m.mem := m.mem.(bytes := m.mem.bytes[pa := page]);
  }

  /** One page of copyout: the body of its loop. */
  method CopyoutPage(m: Machine, r: nat, dstva: nat, chunk: seq<byte>) returns (ok: bool)
    requires VmInv(m.mem) && IsRoot(m.mem, r) && HighPrivate(m.mem, r)
    requires dstva % PAGE_BYTES + |chunk| <= PAGE_BYTES
    modifies m`mem
    ensures ok ==> PageWritten(old(m.mem), m.mem, r, dstva / PAGE_BYTES, dstva % PAGE_BYTES, chunk)
    ensures !ok ==> PageRefused(old(m.mem), m.mem, r, dstva / PAGE_BYTES)
  {
    hide Linked, ListInv, Entry, Leaf, LeavesOk, RefsOk, Injective, SameOutside, SameMaps, OwnedKept, Sees;
    ghost var s := m.mem;
    var v := dstva / PAGE_BYTES;
    StepReflexive(s, r, 0, 0);
    if v >= MAX_VPN {
      return false;
    }
    WritableEntry(s, r, v);
    EntryHasLeaf(s, r, v);
    var slot := Walk(m, r, v, false);
    if slot.None? {
      return false;
    }
    var pte := m.mem.ptes[slot.value.0][slot.value.1];
    if !pte.v || !pte.u || (!pte.w && !pte.cow) {
      return false;
    }
    if !pte.w && pte.cow {
      ok := BreakCow(m, r, v);
      if !ok {
        return;
      }
      HighFrame(s, m.mem, r, v, v + 1);
    }
    ghost var b := m.mem;
    WritePage(m, r, v, dstva % PAGE_BYTES, chunk);
    WrittenAfterBreak(s, b, m.mem, r, v, dstva % PAGE_BYTES, chunk);
    ok := true;
  }

  lemma PokedStart(s: Memory, r: nat, va: nat)
    requires VmInv(s) && IsRoot(s, r)
    ensures Poked(s, s, r, va, [])
  {
    hide Linked, ListInv, Entry, Leaf, LeavesOk, RefsOk, Injective;
    StepReflexive(s, r, 0, TRAPFRAME_VPN);
    forall v: nat | v < TRAPFRAME_VPN ensures Sees(s, r, v) == PokePage(Sees(s, r, v), v, va, []) {
      if Sees(s, r, v).Some? {
        PokeNothing(Sees(s, r, v).value.bytes, v, va);
      }
    }
  }

  lemma PokedNext(s: Memory, b: Memory, s': Memory, r: nat, va: nat, data: seq<byte>, n: nat, k: nat)
    requires n + k <= |data| && k <= PAGE_BYTES - (va + n) % PAGE_BYTES
    requires Poked(s, b, r, va, data[..n])
    requires PageWritten(b, s', r, (va + n) / PAGE_BYTES, (va + n) % PAGE_BYTES, data[n..n + k])
    ensures Poked(s, s', r, va, data[..n + k])
  {
    hide Linked, ListInv, Entry, Leaf, LeavesOk, RefsOk, Injective, PokeBytes, AllocInv;
    var page := (va + n) / PAGE_BYTES;
    StepWiden(b, s', r, page, page + 1, 0, TRAPFRAME_VPN);
    StepTransitive(s, b, s', r, 0, TRAPFRAME_VPN);
    forall v: nat | v < TRAPFRAME_VPN ensures Sees(s', r, v) == PokePage(Sees(s, r, v), v, va, data[..n + k]) {
      if Sees(s, r, v).Some? {
        PokeNext(Sees(s, r, v).value.bytes, v, va, data, n, k);
      }
      if v != page {
        assert Alike(b, s', r, v);
      }
    }
  }

  lemma PokedRefused(s: Memory, b: Memory, s': Memory, r: nat, va: nat, data: seq<byte>, v: nat)
    requires Poked(s, b, r, va, data) && PageRefused(b, s', r, v)
    ensures Poked(s, s', r, va, data)
    ensures Writable(s, r, v) <==> Writable(b, r, v)
  {
    hide Linked, ListInv, Entry, Leaf, LeavesOk, RefsOk, Injective, AllocInv;
    StepWiden(b, s', r, 0, 0, 0, TRAPFRAME_VPN);
    StepTransitive(s, b, s', r, 0, TRAPFRAME_VPN);
    forall w: nat | w < TRAPFRAME_VPN ensures Sees(s', r, w) == PokePage(Sees(s, r, w), w, va, data) {
      assert Alike(b, s', r, w);
    }
  }

  /** Writing bytes changes no page's permissions. */
  lemma SameWritable(s: Memory, b: Memory, r: nat, va: nat, data: seq<byte>, v: nat)
    requires Poked(s, b, r, va, data)
    ensures Writable(s, r, v) <==> Writable(b, r, v)
  {
    hide Linked, ListInv, Entry, Leaf, LeavesOk, RefsOk, Injective, AllocInv, Sees, PokeBytes;
  }

  /** A chunk that ends within its page stays on it. */
  lemma OnePage(va: nat, k: nat)
    requires k <= PAGE_BYTES - va % PAGE_BYTES
    ensures forall a: nat | va <= a < va + k :: a / PAGE_BYTES == va / PAGE_BYTES
  {
  }

  /**
    copyout: the process sees src written at dstva, or, when the copy is refused, the
    prefix of src that lies before the page that could not be written.  Every page
    that was written was one the process may write.
   */
  method Copyout(m: Machine, r: nat, dstva: nat, src: seq<byte>) returns (ok: bool, ghost n: nat)
    requires VmInv(m.mem) && IsRoot(m.mem, r) && HighPrivate(m.mem, r)
    modifies m`mem
    ensures n <= |src| && (ok <==> n == |src|)
    ensures Poked(old(m.mem), m.mem, r, dstva, src[..n])
    ensures forall a: nat | dstva <= a < dstva + n :: Writable(old(m.mem), r, a / PAGE_BYTES)
    ensures !ok ==> (n == 0 || (dstva + n) % PAGE_BYTES == 0)
                    && (!Writable(old(m.mem), r, (dstva + n) / PAGE_BYTES) || m.mem.freelist == [])
  {
    hide VmInv, Poked, PageWritten, PageRefused, Writable, HighPrivate;
    ghost var s := m.mem;
    n := 0;
    var va, len, p := dstva, |src|, 0;
    PokedStart(s, r, dstva);
    PokedRoot(s, m.mem, r, dstva, src[..n]);
    while len > 0
      invariant p == n && n + len == |src| && 0 <= len && va == dstva + n
      invariant len > 0 ==> n == 0 || va % PAGE_BYTES == 0
      invariant Bounds(m.mem) && VmInv(m.mem) && IsRoot(m.mem, r) && Bounds(s)
      invariant Poked(s, m.mem, r, dstva, src[..n]) && HighPrivate(m.mem, r)
      invariant forall a: nat | dstva <= a < dstva + n :: Writable(s, r, a / PAGE_BYTES)
    {
      var k := PAGE_BYTES - va % PAGE_BYTES;
      if k > len {
        k := len;
      }
      ghost var b := m.mem;
      ok := CopyoutPage(m, r, va, src[p..p + k]);
      if !ok {
        PokedRefused(s, b, m.mem, r, dstva, src[..n], va / PAGE_BYTES);
        RefusedWhy(b, m.mem, r, va / PAGE_BYTES);
        return;
      }
      PokedOn(s, b, m.mem, r, dstva, src, n, k);
      PokedRoot(s, m.mem, r, dstva, src[..n + k]);
      len := len - k;
      p := p + k;
      va := va + k;
      n := n + k;
    }
    ok := true;
  }

  lemma PokedRoot(s: Memory, s': Memory, r: nat, va: nat, data: seq<byte>)
    requires Poked(s, s', r, va, data)
    ensures Bounds(s') && VmInv(s') && IsRoot(s', r) && Bounds(s)
  {
  }

  lemma RefusedWhy(s: Memory, s': Memory, r: nat, v: nat)
    requires PageRefused(s, s', r, v)
    ensures Bounds(s) && (!Writable(s, r, v) || s'.freelist == [])
  {
  }

  /** One more page of copyout. */
  lemma PokedOn(s: Memory, b: Memory, s': Memory, r: nat, va: nat, data: seq<byte>, n: nat, k: nat)
    requires 0 < k <= PAGE_BYTES - (va + n) % PAGE_BYTES && n + k <= |data|
    requires Poked(s, b, r, va, data[..n]) && HighPrivate(b, r)
    requires PageWritten(b, s', r, (va + n) / PAGE_BYTES, (va + n) % PAGE_BYTES, data[n..n + k])
    ensures Poked(s, s', r, va, data[..n + k]) && HighPrivate(s', r)
    ensures forall a: nat | va + n <= a < va + n + k :: Writable(s, r, a / PAGE_BYTES)
  {
    hide Linked, ListInv, Entry, Leaf, LeavesOk, RefsOk, Injective, AllocInv, SameOutside, Sees, PokeBytes, PokePage;
    PokedNext(s, b, s', r, va, data, n, k);
    SameWritable(s, b, r, va, data[..n], (va + n) / PAGE_BYTES);
    OnePage(va + n, k);
    HighFrame(b, s', r, (va + n) / PAGE_BYTES, (va + n) / PAGE_BYTES + 1);
  }

  /** A byte the process may read through walkaddr: a mapped user page. */
  ghost predicate Readable(s: Memory, r: nat, a: nat)
    requires Bounds(s) && r in s.role
  {
    a / PAGE_BYTES < TRAPFRAME_VPN && Sees(s, r, a / PAGE_BYTES).Some? && Sees(s, r, a / PAGE_BYTES).value.u
  }

  ghost function ByteAt(s: Memory, r: nat, a: nat): byte
    requires Bounds(s) && r in s.role && Readable(s, r, a)
  {
    Sees(s, r, a / PAGE_BYTES).value.bytes[a % PAGE_BYTES]
  }

  /** walkaddr: the bytes of the page for vpn, if it is a mapped user page. */
  method Walkaddr(m: Machine, r: nat, v: nat) returns (page: Option<seq<byte>>)
    requires VmInv(m.mem) && IsRoot(m.mem, r) && HighPrivate(m.mem, r)
    modifies m`mem
    ensures m.mem == old(m.mem)
    ensures page.Some? <==> v < TRAPFRAME_VPN && Sees(m.mem, r, v).Some? && Sees(m.mem, r, v).value.u
    ensures page.Some? ==> page.value == Sees(m.mem, r, v).value.bytes
  {
    if v >= MAX_VPN {
      return None;
    }
    EntryHasLeaf(m.mem, r, v);
    assert LeafOk(m.mem, r, v);
    hide Linked, ListInv, Entry, Leaf, LeavesOk, RefsOk, Injective;
    var slot := Walk(m, r, v, false);
    if slot.None? {
      return None;
    }
    var pte := m.mem.ptes[slot.value.0][slot.value.1];
    if !pte.v || !pte.u {
      return None;
    }
    return Some(m.mem.bytes[pte.ppn]);
  }

  /** copyin: the bytes the process sees at srcva, exactly when it may read all of them. */
  method Copyin(m: Machine, r: nat, srcva: nat, len: nat) returns (data: Option<seq<byte>>)
    requires VmInv(m.mem) && IsRoot(m.mem, r) && HighPrivate(m.mem, r)
    modifies m`mem
    ensures m.mem == old(m.mem)
    ensures data.Some? <==> forall a | srcva <= a < srcva + len :: Readable(m.mem, r, a)
    ensures data.Some? ==>
              |data.value| == len && forall a | srcva <= a < srcva + len :: data.value[a - srcva] == ByteAt(m.mem, r, a)
  {
    hide Linked, AllocInv, LeavesOk, RefsOk, Injective, Entry, Leaf, HighPrivate, Sees;
    var dst: seq<byte> := [];
    var va, left := srcva, len;
    while left > 0
      invariant 0 <= left && |dst| + left == len && va == srcva + |dst| && m.mem == old(m.mem)
      invariant forall a | srcva <= a < va :: Readable(m.mem, r, a) && dst[a - srcva] == ByteAt(m.mem, r, a)
    {
      var page := Walkaddr(m, r, va / PAGE_BYTES);
      if page.None? {
        assert !Readable(m.mem, r, va);
        return None;
      }
      var off := va % PAGE_BYTES;
      var n := PAGE_BYTES - off;
      if n > left {
        n := left;
      }
      PageReads(m.mem, r, va, n);
      dst := dst + page.value[off..off + n];
      left := left - n;
      va := va + n;
    }
    return Some(dst);
  }

  lemma PageReads(s: Memory, r: nat, va: nat, n: nat)
    requires Bounds(s) && r in s.role && Readable(s, r, va) && va % PAGE_BYTES + n <= PAGE_BYTES
    ensures |Sees(s, r, va / PAGE_BYTES).value.bytes| == PAGE_BYTES
    ensures forall a | va <= a < va + n ::
              && Readable(s, r, a)
              && ByteAt(s, r, a) == Sees(s, r, va / PAGE_BYTES).value.bytes[va % PAGE_BYTES + (a - va)]
  {
    forall a | va <= a < va + n
      ensures Readable(s, r, a)
      ensures ByteAt(s, r, a) == Sees(s, r, va / PAGE_BYTES).value.bytes[va % PAGE_BYTES + (a - va)]
    {
      assert a / PAGE_BYTES == va / PAGE_BYTES && a % PAGE_BYTES == va % PAGE_BYTES + (a - va);
    }
  }

  // ---------------------------------------------------------------------
  // A store instruction and its page fault

  datatype Fault = Resume | Kill | Crash

  datatype StoreResult = Stored | Killed | Panicked

  /** What the hardware checks before it lets a user store through. */
  ghost predicate HwWritable(s: Memory, r: nat, v: nat)
    requires Bounds(s) && r in s.role
  {
    v < MAX_VPN && Entry(s, r, v).v && Entry(s, r, v).w && Entry(s, r, v).u
  }

  method Translate(m: Machine, r: nat, v: nat) returns (ok: bool)
    requires VmInv(m.mem) && IsRoot(m.mem, r)
    modifies m`mem
    ensures m.mem == old(m.mem) && (ok <==> HwWritable(m.mem, r, v))
  {
    if v >= MAX_VPN {
      return false;
    }
    EntryHasLeaf(m.mem, r, v);
    hide Linked, ListInv, Entry, Leaf, LeavesOk, RefsOk, Injective;
    var slot := Walk(m, r, v, false);
    if slot.None? {
      return false;
    }
    var pte := m.mem.ptes[slot.value.0][slot.value.1];
    return pte.v && pte.w && pte.u;
  }

  /** Nothing but the count that kalloc sets for the null page has changed. */
  ghost predicate Struck(s: Memory, s': Memory) {
    s' == s || s' == s.(refcnt := s.refcnt[0 := 1])
  }

  /**
    A store at va makes the kernel itself fault: the page is not writable for the hardware
    and either has no page-table page, or is copy-on-write with no memory for the copy.
   */
  ghost predicate StorePanics(s: Memory, r: nat, va: nat) {
    && Bounds(s) && r in s.role && va / PAGE_BYTES < MAX_VPN && !HwWritable(s, r, va / PAGE_BYTES)
    && (Leaf(s, r, va / PAGE_BYTES).None? || (Entry(s, r, va / PAGE_BYTES).cow && s.freelist == []))
  }

  /** A page without a page-table page is not writable for the hardware. */
  lemma HolePanics(s: Memory, r: nat, vpn: nat)
    requires Bounds(s) && r in s.role && vpn < MAX_VPN && Leaf(s, r, vpn).None?
    ensures StorePanics(s, r, vpn * PAGE_BYTES)
  {
    hide Leaf;
    assert vpn * PAGE_BYTES / PAGE_BYTES == vpn;
  }

  lemma StruckPanics(s: Memory, s': Memory, r: nat, va: nat)
    requires VmInv(s) && IsRoot(s, r) && HighPrivate(s, r) && Struck(s, s') && StorePanics(s, r, va)
    ensures StorePanics(s', r, va) && Poked(s, s', r, va, [])
    ensures s.freelist == [] || !Writable(s, r, va / PAGE_BYTES)
  {
    hide VmInv, Entry, Leaf, Writable, Poked, HighPrivate;
    HwFacts(s, r, va / PAGE_BYTES);
    StruckEntries(s, s', r, va / PAGE_BYTES);
    StruckPoked(s, s', r, va);
  }

  /** Nobody sees a difference. */
  lemma StruckPoked(s: Memory, s': Memory, r: nat, va: nat)
    requires VmInv(s) && IsRoot(s, r) && Struck(s, s')
    ensures Poked(s, s', r, va, [])
  {
    hide TreeInv, ListInv, LeavesOk, RefsOk, Injective, Entry, Leaf, Alike, PokePage, SameOutside;
    NullStep(s, r);
    StepReflexive(s, r, 0, 0);
    PokedStart(s, r, va);
    StepWiden(s, s', r, 0, 0, 0, TRAPFRAME_VPN);
    forall w: nat | w < TRAPFRAME_VPN ensures Sees(s', r, w) == PokePage(Sees(s, r, w), w, va, []) {
      StruckEntries(s, s', r, w);
    }
  }

  lemma StruckEntries(s: Memory, s': Memory, r: nat, v: nat)
    requires Bounds(s) && r in s.role && Struck(s, s')
    ensures Bounds(s') && Leaf(s', r, v) == Leaf(s, r, v) && Entry(s', r, v) == Entry(s, r, v)
  {
  }

  /**
    usertrap on a store page fault at page v.  A missing page-table page, or a
    copy-on-write page with no memory for the copy, makes the kernel itself fault.
   */
  method StoreFault(m: Machine, r: nat, v: nat) returns (f: Fault)
    requires VmInv(m.mem) && IsRoot(m.mem, r) && HighPrivate(m.mem, r)
    modifies m`mem
    ensures f == (if v >= MAX_VPN then Kill
                  else if old(Leaf(m.mem, r, v)).None? then Crash
                  else if !old(Entry(m.mem, r, v)).cow then Kill
                  else if old(m.mem).freelist == [] then Crash
                  else Resume)
    ensures f == Resume ==> Broken(old(m.mem), m.mem, r, v)
    ensures f == Kill ==> m.mem == old(m.mem)
    ensures f == Crash ==> Struck(old(m.mem), m.mem)
  {
    if v >= MAX_VPN {
      return Kill;
    }
    assert LeafOk(m.mem, r, v);
    EntryHasLeaf(m.mem, r, v);
    hide Linked, ListInv, Entry, Leaf, LeavesOk, RefsOk, Injective, Broken;
    var slot := Walk(m, r, v, false);
    if slot.None? {
      return Crash;
    }
    var pte := m.mem.ptes[slot.value.0][slot.value.1];
    if pte.cow {
      var ok := BreakCow(m, r, v);
      return if ok then Resume else Crash;
    }
    return Kill;
  }

  /**
    A user store of one byte, retried after the fault handler.  It succeeds exactly
    when the page looks writable to the process and, if it is shared, a copy can be made.
    A process that is killed has not changed what anyone sees.
   */
  method UserStore(m: Machine, r: nat, va: nat, b: byte) returns (out: StoreResult)
    requires VmInv(m.mem) && IsRoot(m.mem, r) && HighPrivate(m.mem, r)
    modifies m`mem
    ensures out == Stored <==>
              && old(Writable(m.mem, r, va / PAGE_BYTES))
              && (old(HwWritable(m.mem, r, va / PAGE_BYTES)) || old(m.mem).freelist != [])
    ensures out == Panicked <==> StorePanics(old(m.mem), r, va)
    ensures out == Panicked ==> Struck(old(m.mem), m.mem)
    ensures out == Stored ==> Poked(old(m.mem), m.mem, r, va, [b])
    ensures out == Killed ==> Poked(old(m.mem), m.mem, r, va, [])
  {
    hide Linked, AllocInv, Entry, Leaf, LeavesOk, RefsOk, Injective, SameOutside, Sees, PokeBytes;
    ghost var s := m.mem;
    var v := va / PAGE_BYTES;
    HwFacts(s, r, v);
    PokedStart(s, r, va);
    var hw := Translate(m, r, v);
    if !hw {
      var f := StoreFault(m, r, v);
      if f == Kill {
        return Killed;
      } else if f == Crash {
        return Panicked;
      }
      HighFrame(s, m.mem, r, v, v + 1);
      BrokenPoked(s, m.mem, r, v, va);
      hw := Translate(m, r, v);
      if !hw {
        HwFacts(m.mem, r, v);
        var again := StoreFault(m, r, v);
        assert again == Kill;
        return Killed;
      }
    }
    ghost var w := m.mem;
    WritePage(m, r, v, va % PAGE_BYTES, [b]);
    StoredPoked(s, w, m.mem, r, va, b);
    return Stored;
  }

  lemma HwFacts(s: Memory, r: nat, v: nat)
    requires VmInv(s) && IsRoot(s, r) && HighPrivate(s, r)
    ensures HwWritable(s, r, v) ==> v < TRAPFRAME_VPN && Writable(s, r, v)
    ensures Writable(s, r, v) ==> v < MAX_VPN && Leaf(s, r, v).Some? && (HwWritable(s, r, v) || Entry(s, r, v).cow)
    ensures v < MAX_VPN && Entry(s, r, v).cow && Entry(s, r, v).u ==> Writable(s, r, v)
    ensures v < MAX_VPN && Entry(s, r, v).w ==> !Entry(s, r, v).cow && Leaf(s, r, v).Some?
  {
    if v < MAX_VPN {
      EntryHasLeaf(s, r, v);
      WritableEntry(s, r, v);
      assert LeafOk(s, r, v);
    }
  }

  lemma BrokenPoked(s: Memory, b: Memory, r: nat, v: nat, va: nat)
    requires Broken(s, b, r, v)
    ensures Poked(s, b, r, va, [])
  {
    hide Linked, ListInv, Entry, Leaf, LeavesOk, RefsOk, Injective, AllocInv;
    StepWiden(s, b, r, v, v + 1, 0, TRAPFRAME_VPN);
    forall w: nat | w < TRAPFRAME_VPN ensures Sees(b, r, w) == PokePage(Sees(s, r, w), w, va, []) {
      if w != v { assert Alike(s, b, r, w); }
      if Sees(s, r, w).Some? { PokeNothing(Sees(s, r, w).value.bytes, w, va); }
    }
  }

  lemma StoredPoked(s: Memory, w: Memory, s': Memory, r: nat, va: nat, b: byte)
    requires Poked(s, w, r, va, []) && PageWritten(w, s', r, va / PAGE_BYTES, va % PAGE_BYTES, [b])
    ensures Poked(s, s', r, va, [b])
  {
    hide Step, Sees, PokeBytes, Writable;
    assert [b][..0] == [] && [b][0..1] == [b] && [b][..1] == [b];
    PokedNext(s, w, s', r, va, [b], 0, 1);
  }
}
