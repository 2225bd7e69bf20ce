/**
  The three-level page-table tree stored in physical pages, and the finite map
  from virtual page numbers to entries that it represents (kernel/vm.c: walk).

  The ghost role of a table page names its root, level, position and parent.
  Two entries can therefore never lead to the same table page, and a page that
  claims to be part of a tree really is reachable in it.
 */
module PageTable {
  import opened Prelude
  import opened Sv39
  import opened Kalloc

  ghost predicate IsTable(s: Memory, t: nat) {
    t in s.role && s.role[t].Table?
  }

  ghost predicate IsRoot(s: Memory, r: nat) {
    r in s.role && s.role[r] == Table(r, 2, 0, r)
  }

  /** A valid entry above the leaves points to the table page for its position. */
  ghost predicate Down(s: Memory, t: nat, i: nat)
    requires IsTable(s, t) && t in s.ptes && i < |s.ptes[t]|
  {
    var ro, e := s.role[t], s.ptes[t][i];
    ro.level > 0 && e.v ==>
      && !e.r && !e.w && !e.x
      && e.ppn in s.role && s.role[e.ppn] == Table(ro.root, ro.level - 1, ro.prefix * 512 + i, t)
  }

  /** A table page is a root, or is pointed to by its parent at its own position. */
  ghost predicate Up(s: Memory, t: nat)
    requires IsTable(s, t)
  {
    var ro := s.role[t];
    if ro.level == 2 then t == ro.root && ro.prefix == 0 && ro.parent == t
    else
      && ro.level < 2
      && (ro.level == 1 ==> ro.prefix < 256)
      && IsTable(s, ro.parent) && ro.parent in s.ptes && |s.ptes[ro.parent]| == TABLE_SIZE
      && var up := s.role[ro.parent];
         && up.root == ro.root && up.level == ro.level + 1 && up.prefix == ro.prefix / 512
         && s.ptes[ro.parent][ro.prefix % 512].v && s.ptes[ro.parent][ro.prefix % 512].ppn == t
  }

  ghost predicate Linked(s: Memory)
    requires Bounds(s)
  {
    && (forall t | IsTable(s, t) :: Up(s, t))
    && (forall t, i: nat | IsTable(s, t) && i < TABLE_SIZE :: Down(s, t, i))
  }

  ghost predicate TreeInv(s: Memory) {
    Bounds(s) && Linked(s)
  }

  /** The level-1 and level-0 table pages on the path to vpn, if they exist. */
  ghost function Mid(s: Memory, r: nat, vpn: nat): (t: Option<nat>)
    requires Bounds(s) && r in s.role
    ensures t.Some? ==> t.value in s.role
  {
    var e := s.ptes[r][Px(2, vpn)];
    if e.v && e.ppn in s.role then Some(e.ppn) else None
  }

  ghost function Leaf(s: Memory, r: nat, vpn: nat): (t: Option<nat>)
    requires Bounds(s) && r in s.role
    ensures t.Some? ==> t.value in s.role
  {
    match Mid(s, r, vpn)
    case None => None
    case Some(m) =>
      var e := s.ptes[m][Px(1, vpn)];
      if e.v && e.ppn in s.role then Some(e.ppn) else None
  }

  /** The finite map a tree represents: the entry stored for vpn, or zero. */
  ghost function Entry(s: Memory, r: nat, vpn: nat): Pte
    requires Bounds(s) && r in s.role
  {
    match Leaf(s, r, vpn)
    case None => ZERO_PTE
    case Some(t) => s.ptes[t][Px(0, vpn)]
  }

  lemma PathRoles(s: Memory, r: nat, vpn: nat)
    requires TreeInv(s) && IsRoot(s, r) && vpn < MAX_VPN
    ensures Mid(s, r, vpn).Some? ==> s.role[Mid(s, r, vpn).value] == Table(r, 1, vpn / 262144, r)
    ensures Leaf(s, r, vpn).Some? ==>
              Mid(s, r, vpn).Some? && s.role[Leaf(s, r, vpn).value] == Table(r, 0, vpn / 512, Mid(s, r, vpn).value)
    ensures s.ptes[r][Px(2, vpn)].v ==> Mid(s, r, vpn).Some?
    ensures Mid(s, r, vpn).Some? && s.ptes[Mid(s, r, vpn).value][Px(1, vpn)].v ==> Leaf(s, r, vpn).Some?
  {
    assert Down(s, r, Px(2, vpn));
    if Mid(s, r, vpn).Some? {
      var m := Mid(s, r, vpn).value;
      assert IsTable(s, m) && Down(s, m, Px(1, vpn));
    }
  }

  /** The level-0 table pages of the tree for the first n positions. */
  ghost function LeafTables(s: Memory, r: nat, n: nat): set<nat> {
    set t | t in s.role && s.role[t].Table? && s.role[t].root == r && s.role[t].level == 0 && s.role[t].prefix < n
  }

  lemma {:induction false} LeafTablesGrow(s: Memory, r: nat, n: nat)
    requires TreeInv(s) && IsRoot(s, r) && n * 512 <= MAX_VPN && forall w: nat | w < n :: Leaf(s, r, w * 512).Some?
    ensures |LeafTables(s, r, n)| >= n
  {
    hide Linked, Leaf;
    if n > 0 {
      LeafTablesGrow(s, r, n - 1);
      PathRoles(s, r, (n - 1) * 512);
      var t := Leaf(s, r, (n - 1) * 512).value;
      SubsetSize(LeafTables(s, r, n - 1) + {t}, LeafTables(s, r, n));
    }
  }

  /** There are fewer pages than positions for level-0 tables, so every tree lacks one. */
  lemma LeafMissing(s: Memory, r: nat) returns (vpn: nat)
    requires TreeInv(s) && IsRoot(s, r)
    ensures vpn < MAX_VPN && Leaf(s, r, vpn).None?
  {
    hide Linked, Leaf;
    var n := 0x8001;
    if w: nat :| w < n && Leaf(s, r, w * 512).None? {
      return w * 512;
    }
    LeafTablesGrow(s, r, n);
    SubsetSize(LeafTables(s, r, n), Range(s.lo, s.hi));
    assert false;
  }

  /** A level-0 table page is the one walk finds for each of its 512 page numbers. */
  lemma LeafOfTable(s: Memory, t: nat, i: nat)
    requires TreeInv(s) && IsTable(s, t) && s.role[t].level == 0 && i < 512
    ensures IsRoot(s, s.role[t].root)
    ensures s.role[t].prefix * 512 + i < MAX_VPN
    ensures Leaf(s, s.role[t].root, s.role[t].prefix * 512 + i) == Some(t)
  {
    var ro := s.role[t];
    assert Up(s, t);
    var m := ro.parent;
    assert Up(s, m);
    var r := s.role[m].parent;
    assert Up(s, r);
  }

  /** The state after an entry is stored in a table page. */
  ghost function Stored(s: Memory, t: nat, i: nat, e: Pte): Memory
    requires t in s.ptes && i < |s.ptes[t]|
  {
    s.(ptes := s.ptes[t := s.ptes[t][i := e]])
  }

  /** Storing an entry in a level-0 table changes the map at that one page number. */
  lemma StoreLeaf(s: Memory, t: nat, i: nat, e: Pte)
    requires TreeInv(s) && IsTable(s, t) && s.role[t].level == 0 && i < 512
    ensures var s' := Stored(s, t, i, e);
            && TreeInv(s')
            && (forall r, v: nat | IsRoot(s, r) && v < MAX_VPN :: Leaf(s', r, v) == Leaf(s, r, v))
            && (forall r, v: nat | IsRoot(s, r) && v < MAX_VPN ::
                  Entry(s', r, v) == if r == s.role[t].root && v == s.role[t].prefix * 512 + i then e
                    else Entry(s, r, v))
  {
    var s' := Stored(s, t, i, e);
    assert Bounds(s');
    forall q | IsTable(s', q) ensures Up(s', q) {
      assert IsTable(s, q) && Up(s, q);
    }
    forall q, j: nat | IsTable(s', q) && j < TABLE_SIZE ensures Down(s', q, j) {
      assert IsTable(s, q) && Down(s, q, j);
    }
    forall r, v: nat | IsRoot(s, r) && v < MAX_VPN
      ensures Leaf(s', r, v) == Leaf(s, r, v)
      ensures Entry(s', r, v) == if r == s.role[t].root && v == s.role[t].prefix * 512 + i then e else Entry(s, r, v)
    {
      PathRoles(s, r, v);
      LeafOfTable(s, t, i);
    }
  }

  /** The state after a zeroed page c is hung under entry i of table t. */
  ghost function Hung(s: Memory, t: nat, i: nat, c: nat): Memory
    requires IsTable(s, t) && s.role[t].level > 0 && t in s.ptes && i < |s.ptes[t]|
  {
    var ro := s.role[t];
    s.(ptes := s.ptes[t := s.ptes[t][i := TablePte(c)]],
       role := s.role[c := Table(ro.root, ro.level - 1, ro.prefix * 512 + i, t)])
  }

  ghost predicate CanHang(s: Memory, t: nat, i: nat, c: nat) {
    && TreeInv(s) && IsTable(s, t) && s.role[t].level > 0 && i < 512
    && (s.role[t].level == 2 ==> i < 256)
    && !s.ptes[t][i].v
    && c in s.role && !s.role[c].Table? && s.ptes[c] == FilledTable(0)
  }

  lemma HungBounds(s: Memory, t: nat, i: nat, c: nat)
    requires CanHang(s, t, i, c)
    ensures Bounds(Hung(s, t, i, c))
    ensures forall q :: IsTable(Hung(s, t, i, c), q) <==> IsTable(s, q) || q == c
    ensures forall q | IsTable(s, q) :: Hung(s, t, i, c).role[q] == s.role[q]
  {
  }

  lemma HungUp(s: Memory, t: nat, i: nat, c: nat, q: nat)
    requires CanHang(s, t, i, c) && IsTable(Hung(s, t, i, c), q)
    ensures Up(Hung(s, t, i, c), q)
  {
    HungBounds(s, t, i, c);
    if q != c {
      assert Up(s, q);
    }
  }

  lemma HungDown(s: Memory, t: nat, i: nat, c: nat, q: nat, j: nat)
    requires CanHang(s, t, i, c) && IsTable(Hung(s, t, i, c), q) && j < TABLE_SIZE
    ensures Bounds(Hung(s, t, i, c)) && Down(Hung(s, t, i, c), q, j)
  {
    HungBounds(s, t, i, c);
    if q != c {
      assert Down(s, q, j);
    }
  }

  lemma HungTree(s: Memory, t: nat, i: nat, c: nat)
    requires CanHang(s, t, i, c)
    ensures TreeInv(Hung(s, t, i, c))
    ensures forall r | r in s.role :: IsRoot(Hung(s, t, i, c), r) <==> IsRoot(s, r)
  {
    HungBounds(s, t, i, c);
    forall q | IsTable(Hung(s, t, i, c), q) ensures Up(Hung(s, t, i, c), q) {
      HungUp(s, t, i, c, q);
    }
    forall q, j: nat | IsTable(Hung(s, t, i, c), q) && j < TABLE_SIZE ensures Down(Hung(s, t, i, c), q, j) {
      HungDown(s, t, i, c, q, j);
    }
  }

  /** Hanging a zeroed page under an empty entry extends the tree and leaves the map alone. */
  lemma HungEntry(s: Memory, t: nat, i: nat, c: nat, r: nat, v: nat)
    requires CanHang(s, t, i, c) && IsRoot(s, r) && v < MAX_VPN
    ensures TreeInv(Hung(s, t, i, c))
    ensures Entry(Hung(s, t, i, c), r, v) == Entry(s, r, v)
    ensures Leaf(s, r, v).Some? ==> Leaf(Hung(s, t, i, c), r, v).Some?
  {
    var s' := Hung(s, t, i, c);
    HungTree(s, t, i, c);
    PathRoles(s, r, v);
    PathRoles(s', r, v);
    if Mid(s, r, v).Some? {
      var m := Mid(s, r, v).value;
      assert Mid(s', r, v) == Some(m);
      if Leaf(s, r, v).Some? {
        assert Leaf(s', r, v) == Leaf(s, r, v);
      }
    }
  }

  /** The same tables with the same entries. */
  ghost predicate SameTables(s: Memory, s': Memory) {
    && s'.lo == s.lo && s'.hi == s.hi
    && (forall t :: IsTable(s', t) <==> IsTable(s, t))
    && (forall t | IsTable(s, t) && t in s.ptes :: t in s'.ptes && s'.role[t] == s.role[t] && s'.ptes[t] == s.ptes[t])
  }

  /** The same trees with the same maps. */
  ghost predicate SameMaps(s: Memory, s': Memory)
    requires Bounds(s) && Bounds(s')
  {
    && s'.lo == s.lo && s'.hi == s.hi
    && (forall r :: IsRoot(s', r) <==> IsRoot(s, r))
    && (forall r, v: nat | IsRoot(s, r) && v < MAX_VPN :: Entry(s', r, v) == Entry(s, r, v))
    && (forall r, v: nat | IsRoot(s, r) && v < MAX_VPN && Leaf(s, r, v).Some? :: Leaf(s', r, v).Some?)
  }

  lemma TreeFrame(s: Memory, s': Memory)
    requires TreeInv(s) && Bounds(s') && SameTables(s, s')
    ensures TreeInv(s') && SameMaps(s, s')
    ensures forall r, v: nat | IsRoot(s, r) && v < MAX_VPN :: Leaf(s', r, v) == Leaf(s, r, v)
  {
    forall q | IsTable(s', q) ensures Up(s', q) {
      assert IsTable(s, q) && Up(s, q);
    }
    forall q, j: nat | IsTable(s', q) && j < TABLE_SIZE ensures Down(s', q, j) {
      assert IsTable(s, q) && Down(s, q, j);
    }
    forall r, v: nat | IsRoot(s, r) && v < MAX_VPN
      ensures Entry(s', r, v) == Entry(s, r, v) && Leaf(s', r, v) == Leaf(s, r, v)
    {
      PathRoles(s, r, v);
    }
  }
}
