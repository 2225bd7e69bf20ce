/**
  Physical memory and its allocator (kernel/kalloc.c).

  A `Machine` holds the kernel's memory state.  Page numbers stand for page
  addresses (pa / PGSIZE).  A page is used either as bytes or as a page-table
  page, so its contents appear twice, as `bytes` and as `ptes`; memset writes both.
  `role` is ghost: it records what each managed page is being used for.
 */
module Kalloc {
  import opened Prelude
  import opened Sv39

  datatype Role =
    | Free
    | Table(root: nat, level: nat, prefix: nat, parent: nat)
    | User
    | Trapframe(owner: nat)
    | Held      // just allocated by a kernel operation that is still running
    | Kernel

  datatype Proc = Proc(root: nat, sz: nat, trapframe: nat)

  /** The memory state of a machine as a value. */
  datatype Memory = Memory(
    lo: nat, hi: nat,
    freelist: seq<nat>,
    refcnt: map<nat, nat>,
    bytes: map<nat, seq<byte>>,
    ptes: map<nat, seq<Pte>>,
    ghost role: map<nat, Role>)

  function Filled(c: byte): (r: seq<byte>)
    ensures |r| == PAGE_BYTES && forall i | 0 <= i < PAGE_BYTES :: r[i] == c
  {
    seq(PAGE_BYTES, _ => c)
  }

  /** What a page-table page reads as after memset(page, c, PGSIZE). */
  function FilledPte(c: byte): Pte {
    if c == 0 then ZERO_PTE
    else if c == 1 then Decode(0x0101_0101_0101_0101)
    else Decode(0x0505_0505_0505_0505)
  }

  function FilledTable(c: byte): seq<Pte> {
    seq(TABLE_SIZE, _ => FilledPte(c))
  }

  predicate Between(p: nat, lo: nat, hi: nat) {
    lo <= p < hi
  }

  /** Managed pages are those between the end of the kernel and PHYSTOP. */
  ghost predicate Bounds(s: Memory) {
    && 0x8_0000 <= s.lo <= s.hi <= 0x8_8000
    && (forall p: nat :: p in s.role <==> Between(p, s.lo, s.hi))
    && (forall p | p in s.role ::
          && p in s.refcnt && p in s.bytes && p in s.ptes
          && |s.bytes[p]| == PAGE_BYTES && |s.ptes[p]| == TABLE_SIZE)
  }

  /** The free list holds exactly the free pages, each once, and no free page is counted. */
  ghost predicate ListInv(s: Memory) {
    && Bounds(s)
    && NoDup(s.freelist)
    && (forall p :: p in s.freelist <==> p in s.role && s.role[p].Free?)
    && (forall p | p in s.role && s.role[p].Free? :: s.refcnt[p] == 0)
  }

  /** Every owned page is counted; pages with one kernel owner are counted once. */
  ghost predicate AllocInv(s: Memory) {
    && Bounds(s) && ListInv(s)
    && (forall p | p in s.role && !s.role[p].Free? ::
          s.refcnt[p] >= 1 && (!s.role[p].User? ==> s.refcnt[p] == 1))
  }

  /** memset(p, c, PGSIZE). */
  ghost function Filling(s: Memory, p: nat, c: byte): Memory {
    s.(bytes := s.bytes[p := Filled(c)], ptes := s.ptes[p := FilledTable(c)])
  }

  /** The state after kfree drops one reference to p. */
  ghost function Freed(s: Memory, p: nat): Memory
    requires p in s.refcnt && p in s.role
  {
    if s.refcnt[p] > 1 then s.(refcnt := s.refcnt[p := s.refcnt[p] - 1])
    else Filling(s.(refcnt := s.refcnt[p := 0], freelist := [p] + s.freelist, role := s.role[p := Free]), p, 1)
  }

  /** The state after kalloc hands out the head of the free list. */
  ghost function Taken(s: Memory, role: Role): Memory
    requires s.freelist != []
  {
    var p := s.freelist[0];
    Filling(s.(refcnt := s.refcnt[p := 1], freelist := s.freelist[1..], role := s.role[p := role]), p, 5)
  }

  /** The same after a further memset(p, 0, PGSIZE). */
  ghost function Zeroed(s: Memory, role: Role): Memory
    requires s.freelist != []
  {
    Filling(Taken(s, role), s.freelist[0], 0)
  }

  lemma FirstFree(s: Memory)
    requires AllocInv(s) && s.freelist != []
    ensures s.freelist[0] in s.role && s.role[s.freelist[0]].Free?
  {
    assert s.freelist[0] in s.freelist;
  }

  lemma FreedKeeps(s: Memory, p: nat)
    requires ListInv(s) && p in s.role && !s.role[p].Free?
    ensures ListInv(Freed(s, p))
    ensures AllocInv(s) ==> AllocInv(Freed(s, p))
  {
    var t := Freed(s, p);
    assert p !in s.freelist;
    if s.refcnt[p] <= 1 {
      forall q ensures q in t.freelist <==> q in t.role && t.role[q].Free? {
        assert q in t.freelist <==> q == p || q in s.freelist;
      }
    }
  }

  lemma TakenKeeps(s: Memory, role: Role)
    requires AllocInv(s) && s.freelist != [] && !role.Free?
    ensures AllocInv(Taken(s, role))
  {
    var t := Taken(s, role);
    var p := s.freelist[0];
    assert p in s.freelist;
    forall q ensures q in t.freelist <==> q in t.role && t.role[q].Free? {
      assert s.freelist == [p] + t.freelist;
      assert q in s.freelist <==> q == p || q in t.freelist;
    }
  }

  /** Two free lists over the same roles have the same length. */
  lemma SameRoleSameFree(s: Memory, t: Memory)
    requires ListInv(s) && ListInv(t) && s.role == t.role
    ensures |s.freelist| == |t.freelist|
    ensures multiset(s.freelist) == multiset(t.freelist)
  {
    NoDupMultiset(s.freelist);
    NoDupMultiset(t.freelist);
    forall p ensures multiset(s.freelist)[p] == multiset(t.freelist)[p] {
      assert p in s.freelist <==> p in t.freelist;
    }
    assert multiset(s.freelist) == multiset(t.freelist);
    assert |multiset(s.freelist)| == |s.freelist| && |multiset(t.freelist)| == |t.freelist|;
  }

  lemma {:induction false} NoDupMultiset(s: seq<nat>)
    requires NoDup(s)
    ensures forall p :: multiset(s)[p] == if p in s then 1 else 0
  {
    if s != [] {
      NoDupMultiset(s[1..]);
      assert s == [s[0]] + s[1..];
    }
  }

  class Machine {
    var mem: Memory
    var procs: map<nat, Proc>
    const trampoline: nat   // the page of the trampoline code, in the kernel's own text

    /** Memory as the kernel finds it at boot: nothing free, every count zero. */
    constructor Boot(lo: nat, hi: nat, contents: map<nat, seq<byte>>, words: map<nat, seq<Pte>>, counts: map<nat, nat>,
                     tramp: nat)
      requires 0x8_0000 <= lo <= hi <= 0x8_8000
      requires forall p | Between(p, lo, hi) ::
                 && p in contents && p in words && p in counts && counts[p] == 0
                 && |contents[p]| == PAGE_BYTES && |words[p]| == TABLE_SIZE
      ensures ListInv(mem) && mem.freelist == [] && mem.lo == lo && mem.hi == hi && procs == map[]
      ensures trampoline == tramp
      ensures forall p | p in mem.role :: mem.role[p] == Kernel && mem.refcnt[p] == 0
    {
      mem := Memory(lo, hi, [], counts, contents, words,
                    map p: nat | lo <= p < hi && Between(p, lo, hi) :: Kernel);
      procs := map[];
      trampoline := tramp;
    }

    /** kinit: freerange() calls kfree() on every page from the end of the kernel to PHYSTOP. */
    method Freerange()
      requires ListInv(mem) && mem.freelist == []
      requires forall p | p in mem.role :: mem.role[p] == Kernel && mem.refcnt[p] == 0
      modifies this`mem
      ensures AllocInv(mem) && |mem.freelist| == mem.hi - mem.lo
      ensures forall p | p in mem.role :: mem.role[p].Free?
    {
      var p := mem.lo;
      while p < mem.hi
        invariant mem.lo <= p <= mem.hi && ListInv(mem) && |mem.freelist| == p - mem.lo
        invariant forall q | q in mem.role ::
                    mem.role[q] == (if q < p then Free else Kernel) && mem.refcnt[q] == 0
        decreases mem.hi - p
      {
        assert Between(p, mem.lo, mem.hi);
        Kfree(p);
        p := p + 1;
      }
    }

    method Memset(p: nat, c: byte)
      modifies this`mem
      ensures mem == Filling(old(mem), p, c)
    {
      mem := mem.(bytes := mem.bytes[p := Filled(c)], ptes := mem.ptes[p := FilledTable(c)]);
    }

    /** Drops one reference and returns the page to the free list with the last one. */
    method Kfree(p: nat)
      requires ListInv(mem) && p in mem.role && !mem.role[p].Free?
      modifies this`mem
      ensures mem == Freed(old(mem), p)
      ensures ListInv(mem) && (old(AllocInv(mem)) ==> AllocInv(mem))
    {
      FreedKeeps(mem, p);
      if mem.refcnt[p] > 0 {
        mem := mem.(refcnt := mem.refcnt[p := mem.refcnt[p] - 1]);
      }
      if mem.refcnt[p] > 0 {
        return;
      }
      Memset(p, 1);
      mem := mem.(freelist := [p] + mem.freelist, role := mem.role[p := Free]);
    }

    /**
      Hands out the head of the free list, filled with junk and counted once.
      An empty list gives the null page and, as in the source, still sets page_refcnt[0].
     */
    method Kalloc(ghost use: Role) returns (p: nat)
      requires AllocInv(mem) && !use.Free?
      modifies this`mem
      ensures AllocInv(mem)
      ensures old(mem).freelist == [] ==> p == 0 && mem == old(mem).(refcnt := old(mem).refcnt[0 := 1])
      ensures old(mem).freelist != [] ==> p == old(mem).freelist[0] && p != 0 && mem == Taken(old(mem), use)
    {
      if mem.freelist != [] {
        TakenKeeps(mem, use);
        FirstFree(mem);
        p := mem.freelist[0];
        mem := mem.(freelist := mem.freelist[1..], role := mem.role[p := use]);
        Memset(p, 5);
      } else {
        p := 0;
      }
      mem := mem.(refcnt := mem.refcnt[p := 1]);
    }
  }
}
