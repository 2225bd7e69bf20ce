/**
  The state invariant of copy-on-write memory and the effect of each single
  change the kernel makes to it: on the invariant, and on what every process sees.
 */
module Cow {
  import opened Prelude
  import opened Sv39
  import opened Kalloc
  import opened PageTable

  /** User page v of the tree r is mapped to physical page q. */
  ghost predicate Maps(s: Memory, r: nat, v: nat, q: nat)
    requires Bounds(s)
  {
    IsRoot(s, r) && v < TRAPFRAME_VPN && Entry(s, r, v).v && Entry(s, r, v).ppn == q
  }

  /** All user leaf entries that map q, over all trees. */
  ghost function Refs(s: Memory, q: nat): set<(nat, nat)>
    requires Bounds(s)
  {
    set r, v | r in s.role && 0 <= v < TRAPFRAME_VPN && Maps(s, r, v, q) :: (r, v)
  }

  /**
    Every entry is zero or a readable leaf, and never both writable and copy-on-write.
    A user entry maps a user page, and is writable only while it is the sole one.
   */
  ghost predicate LeafOk(s: Memory, r: nat, v: nat)
    requires Bounds(s) && r in s.role
  {
    var e := Entry(s, r, v);
    if e.v then
      && e.r && !(e.w && e.cow)
      && (v < TRAPFRAME_VPN ==> e.ppn in s.role && s.role[e.ppn].User? && (e.w ==> s.refcnt[e.ppn] == 1))
    else e == ZERO_PTE
  }

  ghost predicate LeavesOk(s: Memory)
    requires Bounds(s)
  {
    forall r, v: nat | IsRoot(s, r) && v < MAX_VPN :: LeafOk(s, r, v)
  }

  /** The count of a user page is the number of user entries that map it. */
  ghost predicate RefsOk(s: Memory)
    requires Bounds(s)
  {
    forall q | q in s.role && s.role[q].User? :: s.refcnt[q] == |Refs(s, q)|
  }

  /** One process never maps a physical page twice. */
  ghost predicate Injective(s: Memory)
    requires Bounds(s)
  {
    forall r, v, w, q | Maps(s, r, v, q) && Maps(s, r, w, q) :: v == w
  }

  ghost predicate VmInv(s: Memory) {
    AllocInv(s) && TreeInv(s) && LeavesOk(s) && RefsOk(s) && Injective(s)
  }

  /** What a process can observe of one page: its bytes and its permissions. */
  datatype PageView = PageView(bytes: seq<byte>, r: bool, w: bool, x: bool, u: bool)

  ghost function Sees(s: Memory, r: nat, v: nat): Option<PageView>
    requires Bounds(s) && r in s.role
  {
    var e := Entry(s, r, v);
    if e.v && e.ppn in s.role then Some(PageView(s.bytes[e.ppn], e.r, e.w || e.cow, e.x, e.u)) else None
  }

  /** No process sees any difference. */
  ghost predicate SameViews(s: Memory, s': Memory)
    requires Bounds(s) && Bounds(s')
  {
    && s'.lo == s.lo && s'.hi == s.hi
    && (forall r :: IsRoot(s', r) <==> IsRoot(s, r))
    && (forall r, v: nat | IsRoot(s, r) && v < TRAPFRAME_VPN :: Sees(s', r, v) == Sees(s, r, v))
  }

  /** Only the given user page of the given tree may look different. */
  ghost predicate SameViewsBut(s: Memory, s': Memory, r0: nat, v0: nat)
    requires Bounds(s) && Bounds(s')
  {
    && s'.lo == s.lo && s'.hi == s.hi
    && (forall r :: IsRoot(s', r) <==> IsRoot(s, r))
    && (forall r, v: nat | IsRoot(s, r) && v < TRAPFRAME_VPN
      && !(r == r0 && v == v0) :: Sees(s', r, v) == Sees(s, r, v))
  }

  // ---------------------------------------------------------------------
  // Counting references

  lemma RefsMember(s: Memory, q: nat, r: nat, v: nat)
    requires Bounds(s)
    ensures (r, v) in Refs(s, q) <==> Maps(s, r, v, q)
  {
  }

  lemma RefsSame(s: Memory, s': Memory, q: nat)
    requires Bounds(s) && Bounds(s')
    requires forall r, v :: Maps(s', r, v, q) <==> Maps(s, r, v, q)
    ensures Refs(s', q) == Refs(s, q)
  {
    forall x: (nat, nat) ensures x in Refs(s', q) <==> x in Refs(s, q) {
      RefsMember(s, q, x.0, x.1);
      RefsMember(s', q, x.0, x.1);
    }
  }

  lemma RefsAdd(s: Memory, s': Memory, q: nat, r0: nat, v0: nat)
    requires Bounds(s) && Bounds(s')
    requires !Maps(s, r0, v0, q)
    requires forall r, v :: Maps(s', r, v, q) <==> Maps(s, r, v, q) || (r == r0 && v == v0)
    ensures |Refs(s', q)| == |Refs(s, q)| + 1
  {
    forall x: (nat, nat) ensures x in Refs(s', q) <==> x in Refs(s, q) + {(r0, v0)} {
      RefsMember(s, q, x.0, x.1);
      RefsMember(s', q, x.0, x.1);
    }
    assert Refs(s', q) == Refs(s, q) + {(r0, v0)};
    RefsMember(s, q, r0, v0);
  }

  /** A page counted once has no second mapping. */
  lemma SoleRef(s: Memory, q: nat, r: nat, v: nat, r': nat, v': nat)
    requires Bounds(s) && |Refs(s, q)| <= 1 && Maps(s, r, v, q) && Maps(s, r', v', q)
    ensures r == r' && v == v'
  {
    RefsMember(s, q, r, v);
    RefsMember(s, q, r', v');
    if (r, v) != (r', v') {
      TwoElements(Refs(s, q), (r, v), (r', v'));
    }
  }

  lemma TwoElements<T>(xs: set<T>, a: T, b: T)
    requires a in xs && b in xs && a != b
    ensures |xs| >= 2
  {
    var rest := xs - {a};
    assert |xs| == |rest| + 1;
    assert |rest| == |rest - {b}| + 1;
  }

  // ---------------------------------------------------------------------
  // Storing one entry

  /** The state after *walk(r, v) = e, for a slot that exists. */
  ghost function Put(s: Memory, r: nat, v: nat, e: Pte): Memory
    requires Bounds(s) && r in s.role && Leaf(s, r, v).Some?
  {
    Stored(s, Leaf(s, r, v).value, Px(0, v), e)
  }

  lemma PutEffect(s: Memory, r: nat, v: nat, e: Pte)
    requires TreeInv(s) && IsRoot(s, r) && v < MAX_VPN && Leaf(s, r, v).Some?
    ensures TreeInv(Put(s, r, v, e)) && (AllocInv(s) ==> AllocInv(Put(s, r, v, e)))
    ensures forall q, w: nat | IsRoot(s, q) && w < MAX_VPN ::
              Entry(Put(s, r, v, e), q, w) == if q == r && w == v then e else Entry(s, q, w)
    ensures forall q, w: nat | IsRoot(s, q) && w < MAX_VPN :: Leaf(Put(s, r, v, e), q, w) == Leaf(s, q, w)
  {
    PathRoles(s, r, v);
    StoreLeaf(s, Leaf(s, r, v).value, Px(0, v), e);
  }

  /** uvmcopy marks a writable parent page copy-on-write: nobody sees a difference. */
  lemma PutShare(s: Memory, r: nat, v: nat)
    requires VmInv(s) && IsRoot(s, r) && v < TRAPFRAME_VPN && Leaf(s, r, v).Some? && Entry(s, r, v).v
    ensures var s' := Put(s, r, v, Share(Entry(s, r, v))); VmInv(s') && SameViews(s, s')
  {
    var e := Entry(s, r, v);
    var s' := Put(s, r, v, Share(e));
    PutEffect(s, r, v, Share(e));
    hide Linked, ListInv, Entry, Leaf;
    assert forall a, b, q :: Maps(s', a, b, q) <==> Maps(s, a, b, q);
    forall q ensures Refs(s', q) == Refs(s, q) { RefsSame(s, s', q); }
    assert LeavesOk(s') by {
      forall a, b: nat | IsRoot(s', a) && b < MAX_VPN ensures LeafOk(s', a, b) {
        assert LeafOk(s, a, b);
      }
    }
  }

  /** The first process to share page q with the tree r gets a further counted mapping. */
  ghost function MapShared(s: Memory, r: nat, v: nat, e: Pte): Memory
    requires Bounds(s) && r in s.role && Leaf(s, r, v).Some? && e.ppn in s.role
  {
    Put(s, r, v, e).(refcnt := s.refcnt[e.ppn := s.refcnt[e.ppn] + 1])
  }

  /** s' holds the entries of s except that (r, v) now holds e. */
  ghost predicate OneEntry(s: Memory, s': Memory, r: nat, v: nat, e: Pte)
    requires Bounds(s) && Bounds(s')
  {
    && s'.lo == s.lo && s'.hi == s.hi
    && (forall q :: IsRoot(s', q) <==> IsRoot(s, q))
    && (forall q, w: nat | IsRoot(s, q) && w < MAX_VPN ::
          Entry(s', q, w) == if q == r && w == v then e else Entry(s, q, w))
  }

  lemma MapSharedShape(s: Memory, r: nat, v: nat, e: Pte)
    requires AllocInv(s) && TreeInv(s) && IsRoot(s, r) && v < TRAPFRAME_VPN && Leaf(s, r, v).Some?
    requires e.ppn in s.role && s.role[e.ppn].User?
    ensures var s' := MapShared(s, r, v, e); AllocInv(s') && TreeInv(s') && OneEntry(s, s', r, v, e)
  {
    var s' := MapShared(s, r, v, e);
    PutEffect(s, r, v, e);
    assert Bounds(s');
    TreeFrame(Put(s, r, v, e), s');
    hide Linked, Leaf, Entry;
  }

  lemma MapSharedKeeps(s: Memory, r: nat, v: nat, e: Pte, r1: nat, v1: nat)
    requires VmInv(s) && IsRoot(s, r) && v < TRAPFRAME_VPN && Leaf(s, r, v).Some? && !Entry(s, r, v).v
    requires e.v && e.r && !e.w
    requires Maps(s, r1, v1, e.ppn) && !Entry(s, r1, v1).w
    requires forall b :: !Maps(s, r, b, e.ppn)
    ensures e.ppn in s.role && VmInv(MapShared(s, r, v, e))
  {
    hide Linked, Leaf, Entry, ListInv;
    var q := e.ppn;
    assert LeafOk(s, r1, v1);
    var s' := MapShared(s, r, v, e);
    MapSharedShape(s, r, v, e);
    assert forall a, b, p :: Maps(s', a, b, p) <==> Maps(s, a, b, p) || (a == r && b == v && p == q);
    forall p | p in s'.role && s'.role[p].User? ensures s'.refcnt[p] == |Refs(s', p)| {
      if p == q { RefsAdd(s, s', q, r, v); } else { RefsSame(s, s', p); }
    }
    forall a, b: nat | IsRoot(s', a) && b < MAX_VPN ensures LeafOk(s', a, b) {
      assert LeafOk(s, a, b);
      if Maps(s, a, b, q) && Entry(s, a, b).w {
        SoleRef(s, q, a, b, r1, v1);
      }
    }
  }

  lemma MapSharedViews(s: Memory, r: nat, v: nat, e: Pte)
    requires VmInv(s) && IsRoot(s, r) && v < TRAPFRAME_VPN && Leaf(s, r, v).Some?
    requires e.ppn in s.role && s.role[e.ppn].User? && e.v
    ensures var s' := MapShared(s, r, v, e);
            && Bounds(s') && SameViewsBut(s, s', r, v)
            && Sees(s', r, v) == Some(PageView(s.bytes[e.ppn], e.r, e.w || e.cow, e.x, e.u))
  {
    hide Linked, Leaf, Entry, ListInv, LeavesOk, RefsOk, Injective;
    MapSharedShape(s, r, v, e);
  }

  /** A page the kernel has just allocated becomes user page v of tree r. */
  ghost function MapFresh(s: Memory, r: nat, v: nat, e: Pte): Memory
    requires Bounds(s) && r in s.role && Leaf(s, r, v).Some?
  {
    Put(s, r, v, e).(role := s.role[e.ppn := User])
  }

  lemma MapFreshShape(s: Memory, r: nat, v: nat, e: Pte)
    requires AllocInv(s) && TreeInv(s) && IsRoot(s, r) && v < TRAPFRAME_VPN && Leaf(s, r, v).Some?
    requires e.ppn in s.role && s.role[e.ppn].Held?
    ensures var s' := MapFresh(s, r, v, e); AllocInv(s') && TreeInv(s') && OneEntry(s, s', r, v, e)
  {
    hide Linked, Leaf, Entry;
    var s' := MapFresh(s, r, v, e);
    PutEffect(s, r, v, e);
    assert Bounds(s');
    TreeFrame(Put(s, r, v, e), s');
  }

  lemma MapFreshKeeps(s: Memory, r: nat, v: nat, e: Pte)
    requires VmInv(s) && IsRoot(s, r) && v < TRAPFRAME_VPN && Leaf(s, r, v).Some? && !Entry(s, r, v).v
    requires e.v && e.r && !(e.w && e.cow) && e.ppn in s.role && s.role[e.ppn].Held?
    ensures VmInv(MapFresh(s, r, v, e))
  {
    hide Linked, Leaf, Entry, ListInv;
    var q := e.ppn;
    var s' := MapFresh(s, r, v, e);
    MapFreshShape(s, r, v, e);
    assert forall a, b :: Maps(s, a, b, q) ==> LeafOk(s, a, b);
    assert forall a, b, p :: Maps(s', a, b, p) <==> Maps(s, a, b, p) || (a == r && b == v && p == q);
    assert Refs(s, q) == {};
    forall p | p in s'.role && s'.role[p].User? ensures s'.refcnt[p] == |Refs(s', p)| {
      if p == q { RefsAdd(s, s', q, r, v); } else { RefsSame(s, s', p); }
    }
    forall a, b: nat | IsRoot(s', a) && b < MAX_VPN ensures LeafOk(s', a, b) {
      assert LeafOk(s, a, b);
    }
  }

  lemma MapFreshViews(s: Memory, r: nat, v: nat, e: Pte)
    requires VmInv(s) && IsRoot(s, r) && v < TRAPFRAME_VPN && Leaf(s, r, v).Some?
    requires e.ppn in s.role && s.role[e.ppn].Held? && e.v
    ensures var s' := MapFresh(s, r, v, e);
            && Bounds(s') && SameViewsBut(s, s', r, v)
            && Sees(s', r, v) == Some(PageView(s.bytes[e.ppn], e.r, e.w || e.cow, e.x, e.u))
  {
    hide Linked, Leaf, Entry, ListInv, LeavesOk, RefsOk, Injective;
    MapFreshShape(s, r, v, e);
  }

  /** uvmunmap of one user page with do_free: kfree, then clear the entry. */
  ghost function UnmapUser(s: Memory, r: nat, v: nat): Memory
    requires Bounds(s) && r in s.role && Leaf(s, r, v).Some? && Entry(s, r, v).ppn in s.role
  {
    var f := Freed(s, Entry(s, r, v).ppn);
    Stored(f, Leaf(s, r, v).value, Px(0, v), ZERO_PTE)
  }

  lemma FreedTree(s: Memory, q: nat)
    requires AllocInv(s) && TreeInv(s) && q in s.role && !s.role[q].Free? && !s.role[q].Table?
    ensures AllocInv(Freed(s, q)) && TreeInv(Freed(s, q)) && SameMaps(s, Freed(s, q))
    ensures forall r, v: nat | IsRoot(s, r) && v < MAX_VPN :: Leaf(Freed(s, q), r, v) == Leaf(s, r, v)
  {
    FreedKeeps(s, q);
    hide ListInv;
    TreeFrame(s, Freed(s, q));
  }

  lemma UnmapUserShape(s: Memory, r: nat, v: nat)
    requires AllocInv(s) && TreeInv(s) && IsRoot(s, r) && v < TRAPFRAME_VPN && Leaf(s, r, v).Some?
    requires Entry(s, r, v).ppn in s.role && s.role[Entry(s, r, v).ppn].User?
    ensures var s' := UnmapUser(s, r, v); AllocInv(s') && TreeInv(s') && OneEntry(s, s', r, v, ZERO_PTE)
    ensures forall q, w: nat | IsRoot(s, q) && w < MAX_VPN :: Leaf(UnmapUser(s, r, v), q, w) == Leaf(s, q, w)
  {
    var f := Freed(s, Entry(s, r, v).ppn);
    FreedTree(s, Entry(s, r, v).ppn);
    hide Linked, Leaf, Entry, ListInv;
    PutEffect(f, r, v, ZERO_PTE);
    assert UnmapUser(s, r, v) == Put(f, r, v, ZERO_PTE);
  }

  lemma UnmapUserKeeps(s: Memory, r: nat, v: nat)
    requires VmInv(s) && IsRoot(s, r) && v < TRAPFRAME_VPN && Leaf(s, r, v).Some? && Entry(s, r, v).v
    ensures Entry(s, r, v).ppn in s.role && s.role[Entry(s, r, v).ppn].User?
    ensures VmInv(UnmapUser(s, r, v))
  {
    hide Linked, Leaf, Entry, ListInv;
    var q := Entry(s, r, v).ppn;
    assert LeafOk(s, r, v);
    var s' := UnmapUser(s, r, v);
    UnmapUserShape(s, r, v);
    assert forall a, b, p :: Maps(s, a, b, p) <==> Maps(s', a, b, p) || (a == r && b == v && p == q);
    RefsAdd(s', s, q, r, v);
    forall p | p in s'.role && s'.role[p].User? ensures s'.refcnt[p] == |Refs(s', p)| {
      if p != q { RefsSame(s, s', p); }
    }
    forall a, b: nat | IsRoot(s', a) && b < MAX_VPN ensures LeafOk(s', a, b) {
      assert LeafOk(s, a, b);
      if Maps(s', a, b, q) {
        RefsMember(s', q, a, b);
        assert Maps(s, a, b, q) && s.refcnt[q] == |Refs(s', q)| + 1;
        assert Refs(s', q) != {};
      }
    }
  }

  lemma UnmapUserViews(s: Memory, r: nat, v: nat)
    requires VmInv(s) && IsRoot(s, r) && v < TRAPFRAME_VPN && Leaf(s, r, v).Some? && Entry(s, r, v).v
    ensures Entry(s, r, v).ppn in s.role
    ensures var s' := UnmapUser(s, r, v); Bounds(s') && SameViewsBut(s, s', r, v) && Sees(s', r, v) == None
  {
    hide Linked, Leaf, Entry, ListInv;
    var q := Entry(s, r, v).ppn;
    assert LeafOk(s, r, v);
    var s' := UnmapUser(s, r, v);
    UnmapUserShape(s, r, v);
    forall a, b: nat | IsRoot(s, a) && b < TRAPFRAME_VPN
      && !(a == r && b == v) ensures Sees(s', a, b) == Sees(s, a, b) {
      if Maps(s, a, b, q) && s.refcnt[q] <= 1 {
        SoleRef(s, q, a, b, r, v);
      }
    }
  }

  // ---------------------------------------------------------------------
  // Changes that concern no user page

  /** The maps and the user pages are as before. */
  ghost predicate Quiet(s: Memory, s': Memory)
    requires Bounds(s) && Bounds(s')
  {
    && SameMaps(s, s')
    && (forall q | q in s.role :: s'.role[q].User? <==> s.role[q].User?)
    && (forall q | q in s.role && s.role[q].User? :: s'.refcnt[q] == s.refcnt[q] && s'.bytes[q] == s.bytes[q])
  }

  lemma QuietKeeps(s: Memory, s': Memory)
    requires VmInv(s) && AllocInv(s') && TreeInv(s') && Quiet(s, s')
    ensures VmInv(s') && SameViews(s, s')
  {
    hide Linked, Leaf, Entry, ListInv;
    assert forall a, b, p :: Maps(s', a, b, p) <==> Maps(s, a, b, p);
    forall p ensures Refs(s', p) == Refs(s, p) { RefsSame(s, s', p); }
    forall a, b: nat | IsRoot(s', a) && b < MAX_VPN ensures LeafOk(s', a, b) {
      assert LeafOk(s, a, b);
    }
    forall a, b: nat | IsRoot(s, a) && b < TRAPFRAME_VPN ensures Sees(s', a, b) == Sees(s, a, b) {
      assert LeafOk(s, a, b);
    }
  }

  lemma TakenQuiet(s: Memory)
    requires VmInv(s) && s.freelist != []
    ensures VmInv(Taken(s, Held)) && SameViews(s, Taken(s, Held)) && SameTables(s, Taken(s, Held))
    ensures SameMaps(s, Taken(s, Held))
  {
    var s' := Taken(s, Held);
    FirstFree(s);
    TakenKeeps(s, Held);
    hide Leaf, Entry, ListInv, LeavesOk, RefsOk, Injective;
    TreeFrame(s, s');
    QuietKeeps(s, s');
  }

  lemma FreedQuiet(s: Memory, q: nat)
    requires VmInv(s) && q in s.role && (s.role[q].Held? || s.role[q].Trapframe?)
    ensures VmInv(Freed(s, q)) && SameViews(s, Freed(s, q)) && SameTables(s, Freed(s, q)) && SameMaps(s, Freed(s, q))
  {
    hide Linked, Leaf, Entry, ListInv, LeavesOk, RefsOk, Injective;
    FreedTree(s, q);
    QuietKeeps(s, Freed(s, q));
  }

  /** Filling a page that no process maps. */
  lemma HeldWriteQuiet(s: Memory, q: nat, data: seq<byte>, words: seq<Pte>)
    requires VmInv(s) && q in s.role && s.role[q].Held? && |data| == PAGE_BYTES && |words| == TABLE_SIZE
    ensures var s' := s.(bytes := s.bytes[q := data], ptes := s.ptes[q := words]);
            VmInv(s') && SameViews(s, s') && SameTables(s, s') && SameMaps(s, s')
  {
    var s' := s.(bytes := s.bytes[q := data], ptes := s.ptes[q := words]);
    assert AllocInv(s');
    hide Leaf, Entry, ListInv, LeavesOk, RefsOk, Injective;
    TreeFrame(s, s');
    QuietKeeps(s, s');
  }

  lemma BytesShape(s: Memory, q: nat, data: seq<byte>)
    requires AllocInv(s) && TreeInv(s) && q in s.role && |data| == PAGE_BYTES
    ensures var s' := s.(bytes := s.bytes[q := data]);
            AllocInv(s') && TreeInv(s') && SameMaps(s, s') && SameTables(s, s')
  {
    hide Leaf, Entry;
    var s' := s.(bytes := s.bytes[q := data]);
    assert AllocInv(s');
    hide ListInv;
    TreeFrame(s, s');
  }

  /** A store through a writable entry is seen by that one process only. */
  lemma UserWrite(s: Memory, r: nat, v: nat, data: seq<byte>)
    requires VmInv(s) && IsRoot(s, r) && v < TRAPFRAME_VPN && Entry(s, r, v).v && Entry(s, r, v).w
    requires |data| == PAGE_BYTES
    ensures Entry(s, r, v).ppn in s.role
    ensures var s' := s.(bytes := s.bytes[Entry(s, r, v).ppn := data]);
            && VmInv(s') && SameViewsBut(s, s', r, v) && SameTables(s, s')
            && Sees(s, r, v).Some? && Sees(s', r, v) == Some(Sees(s, r, v).value.(bytes := data))
  {
    hide Linked, Leaf, ListInv, Entry;
    assert LeafOk(s, r, v);
    var q := Entry(s, r, v).ppn;
    var s' := s.(bytes := s.bytes[q := data]);
    BytesShape(s, q, data);
    assert forall a, b, p :: Maps(s', a, b, p) <==> Maps(s, a, b, p);
    forall p ensures Refs(s', p) == Refs(s, p) { RefsSame(s, s', p); }
    forall a, b: nat | IsRoot(s', a) && b < MAX_VPN ensures LeafOk(s', a, b) {
      assert LeafOk(s, a, b);
    }
    forall a, b: nat | IsRoot(s, a) && b < TRAPFRAME_VPN
      && !(a == r && b == v) ensures Sees(s', a, b) == Sees(s, a, b) {
      if Maps(s, a, b, q) {
        SoleRef(s, q, a, b, r, v);
      }
    }
  }

  /** Entries at and above the trapframe page map no user memory. */
  lemma PutHigh(s: Memory, r: nat, v: nat, e: Pte)
    requires VmInv(s) && IsRoot(s, r) && TRAPFRAME_VPN <= v < MAX_VPN && Leaf(s, r, v).Some?
    requires if e.v then e.r && !(e.w && e.cow) else e == ZERO_PTE
    ensures var s' := Put(s, r, v, e); VmInv(s') && SameViews(s, s') && OneEntry(s, s', r, v, e)
  {
    hide Linked, Leaf, Entry, ListInv;
    var s' := Put(s, r, v, e);
    PutEffect(s, r, v, e);
    assert forall a, b, p :: Maps(s', a, b, p) <==> Maps(s, a, b, p);
    forall p ensures Refs(s', p) == Refs(s, p) { RefsSame(s, s', p); }
    forall a, b: nat | IsRoot(s', a) && b < MAX_VPN ensures LeafOk(s', a, b) {
      assert LeafOk(s, a, b);
    }
  }
}
