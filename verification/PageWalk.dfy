/** Walking and extending page-table trees (kernel/vm.c: walk, mappages, uvmunmap, freewalk). */
module PageWalk {
  import opened Prelude
  import opened Sv39
  import opened Kalloc
  import opened PageTable
  import opened Supply
  import opened Cow

  /** Owned pages are unchanged; free pages may have become table pages of the tree of r. */
  ghost predicate OwnedKept(s: Memory, s': Memory, r: nat)
    requires Bounds(s) && Bounds(s') && s.lo == s'.lo && s.hi == s'.hi
  {
    && (forall p | p in s.role && !s.role[p].Free? ::
          s'.role[p] == s.role[p] && s'.refcnt[p] == s.refcnt[p] && s'.bytes[p] == s.bytes[p])
    && (forall p | p in s.role && s.role[p].Free? ::
          s'.role[p].Free? || (s'.role[p].Table? && s'.role[p].root == r && s'.role[p].level < 2))
  }

  /** The tree of r may have gained table pages; no owned page and no map changed. */
  ghost predicate Grown(s: Memory, s': Memory, r: nat)
    requires Bounds(s) && Bounds(s')
  {
    SameMaps(s, s') && OwnedKept(s, s', r)
  }

  lemma GrownReflexive(s: Memory, r: nat)
    requires Bounds(s)
    ensures Grown(s, s, r)
  {
  }

  lemma GrownTransitive(a: Memory, b: Memory, c: Memory, r: nat)
    requires Bounds(a) && Bounds(b) && Bounds(c) && Grown(a, b, r) && Grown(b, c, r)
    ensures Grown(a, c, r)
  {
  }

  lemma GrownRoot(a: Memory, b: Memory, r: nat)
    requires Bounds(a) && Bounds(b) && Grown(a, b, r) && IsRoot(a, r)
    ensures IsRoot(b, r)
  {
  }

  /** A failed kalloc only writes page_refcnt[0], which counts no managed page. */
  lemma NullCount(s: Memory, r: nat)
    requires AllocInv(s) && TreeInv(s)
    ensures var s' := s.(refcnt := s.refcnt[0 := 1]); TreeInv(s') && Grown(s, s', r)
  {
    hide ListInv;
    var s' := s.(refcnt := s.refcnt[0 := 1]);
    assert Bounds(s');
    TreeFrame(s, s');
  }

  lemma ZeroedKeeps(s: Memory)
    requires AllocInv(s) && TreeInv(s) && s.freelist != []
    ensures AllocInv(Zeroed(s, Kernel)) && TreeInv(Zeroed(s, Kernel)) && SameMaps(s, Zeroed(s, Kernel))
    ensures SameTables(s, Zeroed(s, Kernel))
  {
    var c := s.freelist[0];
    assert c in s.freelist;
    TakenKeeps(s, Kernel);
    TreeFrame(s, Zeroed(s, Kernel));
  }

  ghost predicate CanAdd(s: Memory, t: nat, i: nat) {
    && AllocInv(s) && TreeInv(s) && s.freelist != []
    && IsTable(s, t) && 0 < s.role[t].level <= 2 && i < 512 && (s.role[t].level == 2 ==> i < 256)
    && !s.ptes[t][i].v
  }

  lemma Rerole(s: Memory, c: nat, t: nat, page: seq<Pte>, role: Role)
    requires AllocInv(s) && c in s.role && s.role[c].Kernel? && role.Table?
    requires t in s.role && |page| == TABLE_SIZE
    ensures AllocInv(s.(ptes := s.ptes[t := page], role := s.role[c := role]))
  {
  }

  lemma AddedAlloc(s: Memory, t: nat, i: nat)
    requires CanAdd(s, t, i)
    ensures AllocInv(Hung(Zeroed(s, Kernel), t, i, s.freelist[0]))
  {
    hide Linked, SameMaps, ListInv;
    ZeroedKeeps(s);
    var z, c := Zeroed(s, Kernel), s.freelist[0];
    FirstFree(s);
    Rerole(z, c, t, z.ptes[t][i := TablePte(c)],
      Table(z.role[t].root, z.role[t].level - 1, z.role[t].prefix * 512 + i, t));
  }

  lemma AddedOwned(s: Memory, t: nat, i: nat)
    requires CanAdd(s, t, i)
    ensures var s' := Hung(Zeroed(s, Kernel), t, i, s.freelist[0]);
            Bounds(s') && s'.lo == s.lo && s'.hi == s.hi && OwnedKept(s, s', s.role[t].root)
  {
    hide Linked, SameMaps;
    FirstFree(s);
  }

  lemma AddedMaps(s: Memory, t: nat, i: nat)
    requires CanAdd(s, t, i)
    ensures var s' := Hung(Zeroed(s, Kernel), t, i, s.freelist[0]);
            TreeInv(s') && SameMaps(s, s')
  {
    hide Linked, Entry, Leaf;
    var c, s2 := s.freelist[0], Zeroed(s, Kernel);
    assert c in s.freelist;
    ZeroedKeeps(s);
    assert CanHang(s2, t, i, c);
    HungTree(s2, t, i, c);
    forall q, v: nat | IsRoot(s2, q) && v < MAX_VPN
      ensures Entry(Hung(s2, t, i, c), q, v) == Entry(s2, q, v)
      ensures Leaf(s2, q, v).Some? ==> Leaf(Hung(s2, t, i, c), q, v).Some?
    {
      HungEntry(s2, t, i, c, q, v);
    }
  }

  lemma AddedPath(s: Memory, r: nat, vpn: nat, level: nat, t: nat)
    requires AllocInv(s) && TreeInv(s) && IsRoot(s, r) && vpn < MAX_VPN && s.freelist != []
    requires 1 <= level <= 2 && (if level == 2 then t == r else Mid(s, r, vpn) == Some(t))
    requires !s.ptes[t][Px(level, vpn)].v
    ensures IsTable(s, t) && s.role[t].level == level && s.role[t].root == r
    ensures level == 2 ==> Px(level, vpn) < 256
    ensures var s' := Hung(Zeroed(s, Kernel), t, Px(level, vpn), s.freelist[0]);
            && Bounds(s')
            && (if level == 2 then Mid(s', r, vpn) else Leaf(s', r, vpn)) == Some(s.freelist[0])
  {
    PathRoles(s, r, vpn);
    assert s.freelist[0] in s.freelist;
  }

  /** No page-table page stands where the entry above it is empty. */
  lemma SpotEmpty(s: Memory, r: nat, vpn: nat, level: nat, t: nat)
    requires TreeInv(s) && IsRoot(s, r) && vpn < MAX_VPN
    requires 1 <= level <= 2 && (if level == 2 then t == r else Mid(s, r, vpn) == Some(t))
    requires !s.ptes[t][Px(level, vpn)].v
    ensures IsTable(s, t) && s.role[t].level == level && s.role[t].root == r
    ensures Spot(level - 1, s.role[t].prefix * 512 + Px(level, vpn)) in Path(vpn) - Spots(s, r)
  {
    hide Linked;
    PathRoles(s, r, vpn);
    if level == 1 {
      LeafSpot(s, r, vpn);
      assert vpn / 262144 * 512 + vpn / 512 % 512 == vpn / 512;
    } else {
      MidEmpty(s, r, vpn);
    }
  }

  lemma MidEmpty(s: Memory, r: nat, vpn: nat)
    requires TreeInv(s) && IsRoot(s, r) && vpn < MAX_VPN && !s.ptes[r][Px(2, vpn)].v
    ensures Spot(1, vpn / 262144) !in Spots(s, r)
  {
    forall t | t in s.role && s.role[t].Table? && s.role[t].root == r && s.role[t].level == 1
      ensures s.role[t].prefix != vpn / 262144
    {
      assert IsTable(s, t) && Up(s, t) && Up(s, s.role[t].parent);
    }
  }

  lemma AddedSpot(s: Memory, r: nat, vpn: nat, level: nat, t: nat)
    requires AllocInv(s) && TreeInv(s) && IsRoot(s, r) && vpn < MAX_VPN && s.freelist != []
    requires 1 <= level <= 2 && (if level == 2 then t == r else Mid(s, r, vpn) == Some(t))
    requires !s.ptes[t][Px(level, vpn)].v
    ensures IsTable(s, t) && s.role[t].level == level
    ensures Charged(s, Hung(Zeroed(s, Kernel), t, Px(level, vpn), s.freelist[0]), r, Path(vpn))
  {
    hide Linked, Mid, Px, ListInv, Spots, Path;
    SpotEmpty(s, r, vpn, level, t);
    FirstFree(s);
    var c, s' := s.freelist[0], Hung(Zeroed(s, Kernel), t, Px(level, vpn), s.freelist[0]);
    var spot := Spot(level - 1, s.role[t].prefix * 512 + Px(level, vpn));
    assert s'.role == s.role[c := Table(r, spot.level, spot.prefix, t)];
    SpotAdded(s, s', r, c, spot);
    assert Spots(s', r) - Spots(s, r) == {spot};
  }

  lemma SpotAdded(s: Memory, s': Memory, r: nat, c: nat, spot: Spot)
    requires c in s.role && s.role[c].Free? && s'.role.Keys == s.role.Keys && s'.role[c].Table? && s'.role[c].root == r
    requires spot == Spot(s'.role[c].level, s'.role[c].prefix)
    requires forall p | p in s.role && p != c :: s'.role[p] == s.role[p]
    ensures Spots(s', r) == Spots(s, r) + {spot}
  {
    forall x | x in Spots(s, r) + {spot} ensures x in Spots(s', r) {
      if x == spot {
        assert c in s'.role;
      } else {
        var t :| t in s.role && s.role[t].Table? && s.role[t].root == r && Spot(s.role[t].level, s.role[t].prefix) == x;
        assert t in s'.role;
      }
    }
  }

  /** walk's allocating branch: a zeroed table page for the empty entry on the path to vpn. */
  method AddTable(m: Machine, r: nat, vpn: nat, level: nat, t: nat) returns (c: nat)
    requires AllocInv(m.mem) && TreeInv(m.mem) && IsRoot(m.mem, r) && vpn < MAX_VPN
    requires 1 <= level <= 2 && (if level == 2 then t == r else Mid(m.mem, r, vpn) == Some(t))
    requires !m.mem.ptes[t][Px(level, vpn)].v
    modifies m`mem
    ensures AllocInv(m.mem) && TreeInv(m.mem) && Grown(old(m.mem), m.mem, r)
    ensures c == 0 <==> old(m.mem).freelist == []
    ensures c == 0 ==> m.mem.freelist == []
    ensures c == 0 ==> m.mem.ptes == old(m.mem).ptes && m.mem.role == old(m.mem).role
    ensures c != 0 ==> (if level == 2 then Mid(m.mem, r, vpn) else Leaf(m.mem, r, vpn)) == Some(c)
    ensures Charged(old(m.mem), m.mem, r, Path(vpn))
  {
    hide Linked, SameMaps, OwnedKept, AllocInv, Mid, Leaf, Px, Filled, FilledTable, Charged, Spots;
    ghost var s0 := m.mem;
    if m.mem.freelist != [] {
      FirstFree(s0);
      AddedPath(s0, r, vpn, level, t);
      AddedAlloc(s0, t, Px(level, vpn));
      AddedOwned(s0, t, Px(level, vpn));
      AddedMaps(s0, t, Px(level, vpn));
      AddedSpot(s0, r, vpn, level, t);
    } else {
      NullCount(s0, r);
      SpotsSame(s0, s0.(refcnt := s0.refcnt[0 := 1]), r, Path(vpn));
    }
    c := m.Kalloc(Kernel);
    if c == 0 {
      return;
    }
    m.Memset(c, 0);
    assert m.mem == Zeroed(s0, Kernel);
    ghost var ro := m.mem.role[t];
    m.mem := m.mem.(ptes := m.mem.ptes[t := m.mem.ptes[t][Px(level, vpn) := TablePte(c)]],
                    role := m.mem.role[c := Table(ro.root, ro.level - 1, ro.prefix * 512 + Px(level, vpn), t)]);
    assert m.mem == Hung(Zeroed(s0, Kernel), t, Px(level, vpn), c);
  }

  lemma SpotsSame(s: Memory, s': Memory, r: nat, room: set<Spot>)
    requires s'.role == s.role && |s'.freelist| == |s.freelist|
    ensures Charged(s, s', r, room)
  {
    ChargedNothing(s, s', r, room);
  }

  /**
    Returns the slot of the entry for vpn: its level-0 table page and index.
    With alloc, missing table pages are created; without it nothing changes.
   */
  method Walk(m: Machine, r: nat, vpn: nat, alloc: bool) returns (slot: Option<(nat, nat)>)
    requires AllocInv(m.mem) && TreeInv(m.mem) && IsRoot(m.mem, r) && vpn < MAX_VPN
    modifies m`mem
    ensures AllocInv(m.mem) && TreeInv(m.mem) && Grown(old(m.mem), m.mem, r)
    ensures !alloc || old(Leaf(m.mem, r, vpn)).Some? ==> m.mem == old(m.mem)
    ensures !alloc ==> (slot.None? <==> Leaf(m.mem, r, vpn).None?)
    ensures alloc && slot.None? ==> old(Leaf(m.mem, r, vpn)).None? && Leaf(m.mem, r, vpn).None? && m.mem.freelist == []
    ensures slot.Some? ==> Leaf(m.mem, r, vpn) == Some(slot.value.0) && slot.value.1 == Px(0, vpn)
    ensures Charged(old(m.mem), m.mem, r, Path(vpn))
  {
    hide Linked, SameMaps, OwnedKept, ListInv, Charged, Spots, Path;
    ghost var s0 := m.mem;
    GrownReflexive(s0, r);
    SpotsSame(s0, s0, r, Path(vpn));
    var pagetable := r;
    var level := 2;
    while level > 0
      invariant 0 <= level <= 2
      invariant AllocInv(m.mem) && TreeInv(m.mem) && Grown(old(m.mem), m.mem, r) && IsRoot(m.mem, r)
      invariant !alloc || old(Leaf(m.mem, r, vpn)).Some? ==> m.mem == old(m.mem)
      invariant Charged(old(m.mem), m.mem, r, Path(vpn))
      invariant level == 2 ==> pagetable == r
      invariant level == 1 ==> Mid(m.mem, r, vpn) == Some(pagetable)
      invariant level == 0 ==> Leaf(m.mem, r, vpn) == Some(pagetable)
    {
      PathRoles(m.mem, r, vpn);
      var i := Px(level, vpn);
      var pte := m.mem.ptes[pagetable][i];
      if pte.v {
        pagetable := pte.ppn;
      } else {
        if !alloc {
          return None;
        }
        ghost var s1 := m.mem;
        pagetable := AddTable(m, r, vpn, level, pagetable);
        GrownTransitive(s0, s1, m.mem, r);
        GrownRoot(s0, m.mem, r);
        ChargedTransitive(s0, s1, m.mem, r, Path(vpn));
        if pagetable == 0 {
          return None;
        }
      }
      level := level - 1;
    }
    return Some((pagetable, Px(0, vpn)));
  }

  /**
    mappages for one page: the entry for vpn, in a tree g that walk may have extended.
    It fails only when a table page is missing and no memory is left.
   */
  method MapPage(m: Machine, r: nat, vpn: nat, ppn: nat, perm: Pte) returns (ok: bool, ghost g: Memory)
    requires AllocInv(m.mem) && TreeInv(m.mem) && IsRoot(m.mem, r) && vpn < MAX_VPN
    requires !Entry(m.mem, r, vpn).v
    modifies m`mem
    ensures AllocInv(g) && TreeInv(g) && Grown(old(m.mem), g, r) && IsRoot(g, r)
    ensures AllocInv(m.mem) && TreeInv(m.mem)
    ensures ok ==> Leaf(g, r, vpn).Some? && m.mem == Put(g, r, vpn, perm.(v := true, ppn := ppn))
    ensures !ok ==> m.mem == g && g.freelist == [] && Leaf(g, r, vpn).None?
    ensures old(Leaf(m.mem, r, vpn)).Some? ==> ok && g == old(m.mem)
    ensures Charged(old(m.mem), g, r, Path(vpn))
  {
    hide Linked, SameMaps, OwnedKept, ListInv, Leaf, Entry, Charged, Spots, Path;
    var slot := Walk(m, r, vpn, true);
    g := m.mem;
    GrownRoot(old(m.mem), g, r);
    if slot.None? {
      return false, g;
    }
    var (t, i) := slot.value;
    PutEffect(g, r, vpn, perm.(v := true, ppn := ppn));
    m.mem := m.mem.(ptes := m.mem.ptes[t := m.mem.ptes[t][i := perm.(v := true, ppn := ppn)]]);
    return true, g;
  }

  /** The entry mappages writes for page w of a run that starts at vpn and ppn. */
  ghost function RunEntry(perm: Pte, vpn: nat, ppn: nat, w: nat): Pte
    requires vpn <= w
  {
    perm.(v := true, ppn := ppn + (w - vpn))
  }

  /** The map of r holds the first n entries of the run; every other entry is as before. */
  ghost predicate RunMapped(s: Memory, s': Memory, r: nat, vpn: nat, n: nat, ppn: nat, perm: Pte)
    requires Bounds(s) && Bounds(s')
  {
    && s'.lo == s.lo && s'.hi == s.hi
    && (forall q :: IsRoot(s', q) <==> IsRoot(s, q))
    && (forall q, w: nat | IsRoot(s, q) && w < MAX_VPN ::
          Entry(s', q, w) == if q == r && vpn <= w < vpn + n then RunEntry(perm, vpn, ppn, w) else Entry(s, q, w))
  }

  lemma RunStep(s: Memory, a: Memory, g: Memory, r: nat, vpn: nat, n: nat, ppn: nat, perm: Pte)
    requires Bounds(s) && Bounds(a) && TreeInv(g) && IsRoot(g, r) && vpn + n < MAX_VPN
    requires RunMapped(s, a, r, vpn, n, ppn, perm) && Grown(a, g, r) && OwnedKept(s, a, r)
    ensures RunMapped(s, g, r, vpn, n, ppn, perm) && OwnedKept(s, g, r)
    ensures Leaf(g, r, vpn + n).Some? ==>
              var p := Put(g, r, vpn + n, RunEntry(perm, vpn, ppn, vpn + n));
              && TreeInv(p) && RunMapped(s, p, r, vpn, n + 1, ppn, perm) && OwnedKept(s, p, r)
  {
    hide Linked, Entry, Leaf;
    if Leaf(g, r, vpn + n).Some? {
      PutEffect(g, r, vpn + n, RunEntry(perm, vpn, ppn, vpn + n));
    }
  }

  /**
    mappages: the mappings of a run of pages are inserted into the map of r and
    nothing else changes.  When walk runs out of memory a prefix of the run stays mapped.
   */
  method Mappages(m: Machine, r: nat, vpn: nat, npages: nat, ppn: nat, perm: Pte) returns (ok: bool, ghost n: nat)
    requires AllocInv(m.mem) && TreeInv(m.mem) && IsRoot(m.mem, r)
    requires 0 < npages && vpn + npages <= MAX_VPN
    requires forall w | vpn <= w < vpn + npages :: !Entry(m.mem, r, w).v
    modifies m`mem
    ensures AllocInv(m.mem) && TreeInv(m.mem)
    ensures n <= npages && (ok <==> n == npages) && (!ok ==> m.mem.freelist == [])
    ensures RunMapped(old(m.mem), m.mem, r, vpn, n, ppn, perm) && OwnedKept(old(m.mem), m.mem, r)
  {
    hide Linked, SameMaps, OwnedKept, ListInv, Leaf, Entry, Charged, Spots, Path;
    ghost var s := m.mem;
    GrownReflexive(s, r);
    n := 0;
    var a, pa := vpn, ppn;
    var last := vpn + npages - 1;
    while true
      invariant n == a - vpn == pa - ppn && vpn <= a <= last
      invariant AllocInv(m.mem) && TreeInv(m.mem)
      invariant RunMapped(s, m.mem, r, vpn, n, ppn, perm) && OwnedKept(s, m.mem, r)
      decreases last - a
    {
      ghost var before := m.mem;
      assert !Entry(before, r, a).v;
      ghost var g;
      ok, g := MapPage(m, r, a, pa, perm);
      RunStep(s, before, g, r, vpn, n, ppn, perm);
      if !ok {
        return;
      }
      n := n + 1;
      if a == last {
        break;
      }
      a := a + 1;
      pa := pa + 1;
    }
  }
}
