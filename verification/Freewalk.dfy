/** Releasing the table pages of a tree without leaves (kernel/vm.c: freewalk). */
module Freewalk {
  import opened Sv39
  import opened Kalloc
  import opened PageTable

  /** The position, d levels up, of the ancestor of a table page with this prefix. */
  function Ancestor(prefix: nat, d: nat): nat
    requires d <= 2
  {
    if d == 0 then prefix else if d == 1 then prefix / 512 else prefix / 262144
  }

  /** p is a table page in the subtree below (and including) t. */
  ghost predicate Under(s: Memory, p: nat, t: nat) {
    && IsTable(s, p) && IsTable(s, t)
    && s.role[p].root == s.role[t].root
    && s.role[p].level <= s.role[t].level <= 2
    && Ancestor(s.role[p].prefix, s.role[t].level - s.role[p].level) == s.role[t].prefix
  }

  /** The entry of t through which the strictly lower page p is reached. */
  ghost function Branch(s: Memory, p: nat, t: nat): (j: nat)
    requires IsTable(s, p) && IsTable(s, t) && s.role[p].level < s.role[t].level <= 2
    ensures j < 512
  {
    Ancestor(s.role[p].prefix, s.role[t].level - s.role[p].level - 1) % 512
  }

  /** A position in a tree is taken by one page only. */
  lemma UniqueTable(s: Memory, p: nat, t: nat)
    requires TreeInv(s) && IsTable(s, p) && IsTable(s, t)
    requires s.role[p].root == s.role[t].root && s.role[p].level == s.role[t].level
    requires s.role[p].prefix == s.role[t].prefix
    ensures p == t
  {
    assert Up(s, p) && Up(s, t);
    if s.role[p].level < 2 {
      var a, b := s.role[p].parent, s.role[t].parent;
      assert Up(s, a) && Up(s, b);
      if s.role[p].level == 0 {
        assert Up(s, s.role[a].parent) && Up(s, s.role[b].parent);
      }
    }
  }

  /** A page strictly below t is reached through a valid entry of t. */
  lemma BranchValid(s: Memory, p: nat, t: nat)
    requires TreeInv(s) && Under(s, p, t) && p != t
    ensures s.role[p].level < s.role[t].level
    ensures s.ptes[t][Branch(s, p, t)].v && Under(s, p, s.ptes[t][Branch(s, p, t)].ppn)
  {
    if s.role[p].level == s.role[t].level {
      UniqueTable(s, p, t);
    }
    assert Up(s, p);
    var a := s.role[p].parent;
    if s.role[a].level == s.role[t].level {
      UniqueTable(s, a, t);
    } else {
      assert Up(s, a);
      var b := s.role[a].parent;
      UniqueTable(s, b, t);
    }
  }

  /** A page below entry j of t is below the page that entry points to, and conversely. */
  lemma UnderChild(s: Memory, p: nat, t: nat, j: nat)
    requires TreeInv(s) && IsTable(s, t) && 0 < s.role[t].level <= 2 && j < 512 && s.ptes[t][j].v
    ensures Under(s, p, s.ptes[t][j].ppn) <==>
              Under(s, p, t) && s.role[p].level < s.role[t].level && Branch(s, p, t) == j
  {
    assert Down(s, t, j);
  }

  ghost predicate NoLeaves(s: Memory, t: nat)
    requires Bounds(s)
  {
    forall p, j: nat | Under(s, p, t) && s.role[p].level == 0 && j < 512 :: !s.ptes[p][j].v
  }

  ghost predicate Unchanged(s: Memory, s': Memory, p: nat)
    requires Bounds(s) && Bounds(s') && p in s.role && p in s'.role
  {
    s'.role[p] == s.role[p] && s'.refcnt[p] == s.refcnt[p] && s'.bytes[p] == s.bytes[p]
  }

  /** Exactly the subtree of t has been freed. */
  ghost predicate FreedBelow(s: Memory, s': Memory, t: nat)
    requires Bounds(s) && Bounds(s')
  {
    && s'.lo == s.lo && s'.hi == s.hi
    && (forall p | p in s.role ::
          if Under(s, p, t) then s'.role[p].Free? else Unchanged(s, s', p) && s'.ptes[p] == s.ptes[p])
  }

  /** The subtrees under the first i entries of t have been freed and those entries cleared. */
  ghost predicate Pruned(s: Memory, s': Memory, t: nat, i: nat)
    requires Bounds(s) && Bounds(s') && IsTable(s, t) && s.role[t].level <= 2
  {
    && s'.lo == s.lo && s'.hi == s.hi
    && (forall p | p in s.role ::
          if Under(s, p, t) && s.role[p].level < s.role[t].level && Branch(s, p, t) < i then s'.role[p].Free?
          else Unchanged(s, s', p) && (p != t ==> s'.ptes[p] == s.ptes[p]))
    && (forall j: nat | j < 512 :: if j < i then !s'.ptes[t][j].v else s'.ptes[t][j] == s.ptes[t][j])
  }

  /** Every link holds except possibly the one downwards from entry i of t. */
  ghost predicate LinkedBut(s: Memory, t: nat, i: nat)
    requires Bounds(s)
  {
    && (forall q | IsTable(s, q) :: Up(s, q))
    && (forall q, j: nat | IsTable(s, q) && j < TABLE_SIZE && !(q == t && j == i) :: Down(s, q, j))
  }

  lemma PrunedSkip(s: Memory, s': Memory, t: nat, i: nat)
    requires TreeInv(s) && Bounds(s') && IsTable(s, t) && s.role[t].level <= 2 && i < 512
    requires Pruned(s, s', t, i) && !s'.ptes[t][i].v
    ensures Pruned(s, s', t, i + 1)
  {
    hide Linked;
    forall p | p in s.role && Under(s, p, t) && s.role[p].level < s.role[t].level ensures Branch(s, p, t) != i {
      BranchValid(s, p, t);
    }
  }

  /** The child behind entry i is the root of the subtree that entry led to at the start. */
  lemma PrunedChild(s: Memory, s': Memory, t: nat, i: nat)
    requires TreeInv(s) && TreeInv(s') && IsTable(s, t) && 0 < s.role[t].level <= 2 && i < 512
    requires Pruned(s, s', t, i) && NoLeaves(s, t) && s'.ptes[t][i].v
    ensures IsTable(s', t) && s'.ptes[t][i] == s.ptes[t][i]
    ensures var c := s'.ptes[t][i].ppn;
            && !s'.ptes[t][i].r && !s'.ptes[t][i].w && !s'.ptes[t][i].x
            && IsTable(s', c) && s'.role[c] == Table(s.role[t].root, s.role[t].level - 1, s.role[t].prefix * 512 + i, t)
            && NoLeaves(s', c)
            && (forall p | p in s.role :: Under(s', p, c) <==> Under(s, p, c))
  {
    assert Unchanged(s, s', t);
    assert Down(s', t, i);
    hide Linked;
    var c := s'.ptes[t][i].ppn;
    forall p | p in s.role ensures Under(s', p, c) <==> Under(s, p, c) {
      UnderChild(s, p, t, i);
      UnderChild(s', p, t, i);
    }
    forall p, j: nat | Under(s', p, c) && s'.role[p].level == 0 && j < 512 ensures !s'.ptes[p][j].v {
      UnderChild(s, p, t, i);
    }
  }

  /** What the recursive call leaves behind: t itself untouched, its child gone. */
  ghost predicate ChildGone(s: Memory, a: Memory, b: Memory, t: nat, i: nat, c: nat) {
    && TreeInv(s) && TreeInv(a) && Bounds(b) && IsTable(s, t) && 0 < s.role[t].level <= 2 && i < 512
    && Pruned(s, a, t, i) && a.ptes[t][i].v && a.ptes[t][i] == s.ptes[t][i] && c == a.ptes[t][i].ppn
    && IsTable(a, c) && a.role[c].level < s.role[t].level
    && (forall p | p in s.role :: Under(a, p, c) <==> Under(s, p, c))
    && FreedBelow(a, b, c)
  }

  lemma ChildGoneFacts(s: Memory, a: Memory, b: Memory, t: nat, i: nat, c: nat)
    requires ChildGone(s, a, b, t, i, c)
    ensures IsTable(b, t) && b.role[t] == s.role[t] && b.ptes[t] == a.ptes[t] && !IsTable(b, c)
  {
    hide Linked;
    assert Unchanged(s, a, t) && !Under(a, t, c) && Under(a, c, c);
  }

  /** After the child behind entry i is freed, clearing the entry completes that step. */
  lemma PrunedStep(s: Memory, a: Memory, b: Memory, t: nat, i: nat, c: nat)
    requires ChildGone(s, a, b, t, i, c)
    ensures IsTable(b, t)
    ensures Bounds(Stored(b, t, i, ZERO_PTE)) && Pruned(s, Stored(b, t, i, ZERO_PTE), t, i + 1)
  {
    hide Linked;
    ChildGoneFacts(s, a, b, t, i, c);
    var d := Stored(b, t, i, ZERO_PTE);
    forall p | p in s.role
      ensures if Under(s, p, t) && s.role[p].level < s.role[t].level && Branch(s, p, t) < i + 1 then d.role[p].Free?
              else Unchanged(s, d, p) && (p != t ==> d.ptes[p] == s.ptes[p])
    {
      UnderChild(s, p, t, i);
    }
  }

  lemma RestoreLink(s: Memory, t: nat, i: nat)
    requires Bounds(s) && IsTable(s, t) && i < 512 && s.role[t].level > 0
    requires LinkedBut(s, t, i)
    requires !IsTable(s, s.ptes[t][i].ppn)
    ensures TreeInv(Stored(s, t, i, ZERO_PTE))
  {
    var d := Stored(s, t, i, ZERO_PTE);
    assert Bounds(d);
    forall q | IsTable(d, q) ensures Up(d, q) { assert IsTable(s, q) && Up(s, q); }
    forall q, j: nat | IsTable(d, q) && j < TABLE_SIZE ensures Down(d, q, j) {
      if !(q == t && j == i) { assert IsTable(s, q) && Down(s, q, j); }
    }
  }

  /** Once its entries are cleared, freeing t itself completes its subtree. */
  lemma LastFree(s: Memory, a: Memory, t: nat)
    requires TreeInv(s) && TreeInv(a) && AllocInv(a) && IsTable(s, t) && s.role[t].level <= 2
    requires Pruned(s, a, t, 512)
    ensures t in a.role && t in a.refcnt && Bounds(Freed(a, t)) && FreedBelow(s, Freed(a, t), t)
  {
    assert Unchanged(s, a, t);
    FreedKeeps(a, t);
    forall p | p in s.role && Under(s, p, t) ensures p == t || s.role[p].level < s.role[t].level {
      if p != t { BranchValid(s, p, t); }
    }
  }

  lemma FreedTableShape(s: Memory, t: nat)
    requires AllocInv(s) && IsTable(s, t)
    ensures var d := Freed(s, t);
            Bounds(d) && AllocInv(d) && d.role == s.role[t := Free] && d.ptes == s.ptes[t := FilledTable(1)]
  {
    FreedKeeps(s, t);
  }

  lemma LastUp(s: Memory, t: nat, q: nat)
    requires TreeInv(s) && AllocInv(s) && IsTable(s, t) && (forall j: nat | j < 512 :: !s.ptes[t][j].v)
    requires IsTable(Freed(s, t), q)
    ensures Up(Freed(s, t), q)
  {
    FreedTableShape(s, t);
    hide Freed, AllocInv, FilledTable;
    assert IsTable(s, q) && q != t;
    assert Up(s, q);
  }

  lemma LastDown(s: Memory, t: nat, q: nat, j: nat)
    requires TreeInv(s) && AllocInv(s) && IsTable(s, t) && IsTable(Freed(s, t), q) && j < TABLE_SIZE
    requires !(s.role[t].level < 2 && q == s.role[t].parent && j == s.role[t].prefix % 512)
    ensures Bounds(Freed(s, t)) && Down(Freed(s, t), q, j)
  {
    FreedTableShape(s, t);
    hide Freed, AllocInv, FilledTable;
    assert IsTable(s, q) && q != t;
    assert Down(s, q, j);
    assert Up(s, t);
  }

  /** Freeing a table page with no valid entries breaks only its parent's link to it. */
  lemma LastLink(s: Memory, t: nat)
    requires TreeInv(s) && AllocInv(s) && IsTable(s, t) && (forall j: nat | j < 512 :: !s.ptes[t][j].v)
    ensures var d := Freed(s, t);
            && Bounds(d)
            && (if s.role[t].level == 2 then TreeInv(d)
                else LinkedBut(d, s.role[t].parent, s.role[t].prefix % 512))
  {
    FreedTableShape(s, t);
    assert Up(s, t);
    hide Freed, AllocInv, FilledTable, Up, Down;
    var d := Freed(s, t);
    forall q | IsTable(d, q) ensures Up(d, q) { LastUp(s, t, q); }
    forall q, j: nat | IsTable(d, q) && j < TABLE_SIZE
                       && !(s.role[t].level < 2 && q == s.role[t].parent && j == s.role[t].prefix % 512)
      ensures Down(d, q, j)
    {
      LastDown(s, t, q, j);
    }
  }

  lemma StepDone(s: Memory, a: Memory, b: Memory, t: nat, i: nat, c: nat)
    requires ChildGone(s, a, b, t, i, c) && AllocInv(b) && LinkedBut(b, t, i)
    ensures t in b.ptes && i < |b.ptes[t]|
    ensures var d := Stored(b, t, i, ZERO_PTE); AllocInv(d) && TreeInv(d) && Pruned(s, d, t, i + 1)
  {
    hide Linked, LinkedBut, Pruned, FreedBelow, Under, ListInv;
    ChildGoneFacts(s, a, b, t, i, c);
    PrunedStep(s, a, b, t, i, c);
    RestoreLink(b, t, i);
    StoredAlloc(b, t, i);
  }

  lemma StoredAlloc(s: Memory, t: nat, i: nat)
    requires AllocInv(s) && t in s.role && i < 512
    ensures AllocInv(Stored(s, t, i, ZERO_PTE))
  {
  }

  /** A valid entry met by freewalk is never a leaf: its panic is unreachable. */
  lemma LeafAbsent(s: Memory, a: Memory, t: nat, i: nat)
    requires TreeInv(s) && TreeInv(a) && IsTable(s, t) && s.role[t].level <= 2 && i < 512 && NoLeaves(s, t)
    requires Pruned(s, a, t, i) && a.ptes[t][i].v
    ensures s.role[t].level > 0 && !a.ptes[t][i].r && !a.ptes[t][i].w && !a.ptes[t][i].x
  {
    assert Unchanged(s, a, t);
    assert Down(a, t, i);
    assert Under(s, t, t);
  }

  lemma PrunedStart(s: Memory, t: nat)
    requires Bounds(s) && IsTable(s, t) && s.role[t].level <= 2
    ensures Pruned(s, s, t, 0)
  {
  }

  /** One turn of freewalk's loop: the subtree below entry i is freed and the entry cleared. */
  method PruneEntry(m: Machine, t: nat, i: nat, ghost s: Memory)
    requires AllocInv(m.mem) && TreeInv(m.mem) && TreeInv(s) && IsTable(s, t) && s.role[t].level <= 2 && NoLeaves(s, t)
    requires i < 512 && Pruned(s, m.mem, t, i)
    modifies m`mem
    ensures AllocInv(m.mem) && TreeInv(m.mem) && Pruned(s, m.mem, t, i + 1)
    decreases s.role[t].level, 0
  {
    hide Linked, LinkedBut, ListInv, NoLeaves, FreedBelow, Under, Branch;
    var pte := m.mem.ptes[t][i];
    ghost var a := m.mem;
    if pte.v {
      LeafAbsent(s, a, t, i);
    }
    if pte.v && !pte.r && !pte.w && !pte.x {
      PrunedChild(s, a, t, i);
      var child := pte.ppn;
      FreeWalk(m, child);
      StepDone(s, a, m.mem, t, i, child);
      m.mem := m.mem.(ptes := m.mem.ptes[t := m.mem.ptes[t][i := ZERO_PTE]]);
    } else {
      assert !pte.v;   // the source panics here on a valid leaf
      PrunedSkip(s, a, t, i);
    }
  }

  /**
    freewalk(t): every page of the subtree of t, and no other page, goes back to the
    free list.  The free list holds no page twice, so each is freed exactly once.
   */
  method FreeWalk(m: Machine, t: nat)
    requires AllocInv(m.mem) && TreeInv(m.mem) && IsTable(m.mem, t) && m.mem.role[t].level <= 2 && NoLeaves(m.mem, t)
    modifies m`mem
    ensures AllocInv(m.mem) && FreedBelow(old(m.mem), m.mem, t)
    ensures old(m.mem.role[t].level) == 2 ==> TreeInv(m.mem)
    ensures old(m.mem.role[t].level) < 2 ==>
              LinkedBut(m.mem, old(m.mem.role[t].parent), old(m.mem.role[t].prefix) % 512)
    decreases m.mem.role[t].level, 1
  {
    hide Linked, LinkedBut, ListInv, NoLeaves, FreedBelow, Under, Branch;
    ghost var s := m.mem;
    PrunedStart(s, t);
    var i := 0;
    while i < 512
      invariant 0 <= i <= 512
      invariant AllocInv(m.mem) && TreeInv(m.mem) && Pruned(s, m.mem, t, i)
    {
      PruneEntry(m, t, i, s);
      i := i + 1;
    }
    LastFree(s, m.mem, t);
    LastLink(m.mem, t);
    m.Kfree(t);
  }
}
