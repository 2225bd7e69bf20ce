/**
  Sv39 page-table entries and virtual page numbers (kernel/riscv.h).

  The rest of the memory model works on decoded entries (`Pte`) and on page
  numbers.  This module ties both to the 64-bit words and shifts of the source:
  every bit operation the kernel performs on an entry is the matching field
  update on the decoded entry.
 */
module Sv39 {

  /** Bytes per page (PGSIZE) and entries per page-table page. */
  const PAGE_BYTES: nat := 4096
  const TABLE_SIZE: nat := 512

  /** MAXVA / PGSIZE, where MAXVA is 1 << 38. */
  const MAX_VPN: nat := 0x400_0000
  const TRAMPOLINE_VPN: nat := MAX_VPN - 1
  const TRAPFRAME_VPN: nat := MAX_VPN - 2

  /** A decoded page-table entry; the accessed, dirty and global bits are not represented. */
  datatype Pte = Pte(v: bool, r: bool, w: bool, x: bool, u: bool, cow: bool, ppn: nat)

  const ZERO_PTE: Pte := Pte(false, false, false, false, false, false, 0)

  /** An entry that points to a lower-level page-table page: PA2PTE(pa) | PTE_V. */
  function TablePte(ppn: nat): Pte {
    Pte(true, false, false, false, false, false, ppn)
  }

  /** The 9-bit index of a virtual page number at one level of the tree (PX). */
  function Px(level: nat, vpn: nat): (i: nat)
    requires level <= 2
    ensures i < TABLE_SIZE
  {
    if level == 0 then vpn % 512
    else if level == 1 then vpn / 512 % 512
    else vpn / 262144 % 512
  }

  /** Pages needed for sz bytes: PGROUNDUP(sz) / PGSIZE. */
  function PagesFor(sz: nat): nat {
    (sz + PAGE_BYTES - 1) / PAGE_BYTES
  }

  /** The three indices of a page number below MAXVA determine it. */
  lemma PxInjective(a: nat, b: nat)
    requires a < MAX_VPN && b < MAX_VPN
    requires forall l | 0 <= l <= 2 :: Px(l, a) == Px(l, b)
    ensures a == b
  {
    hide Px;
    Indices(a);
    Indices(b);
    assert Px(0, a) == Px(0, b) && Px(1, a) == Px(1, b) && Px(2, a) == Px(2, b);
  }

  /** A page number below MAXVA is made of its three indices. */
  lemma Indices(a: nat)
    requires a < MAX_VPN
    ensures a == Px(2, a) * 262144 + Px(1, a) * 512 + Px(0, a)
  {
    var x := a / 512;
    assert a == 512 * x + a % 512;
    assert x / 512 == a / 262144 < 512;
    assert x == 512 * (x / 512) + x % 512;
  }

  // ---------------------------------------------------------------------
  // The words behind the decoded entries

  const PTE_V: bv64 := 1
  const PTE_R: bv64 := 2
  const PTE_W: bv64 := 4
  const PTE_X: bv64 := 8
  const PTE_U: bv64 := 16
  const PTE_COW: bv64 := 256

  function Pa2Pte(pa: bv64): bv64 { (pa >> 12) << 10 }
  function Pte2Pa(pte: bv64): bv64 { (pte >> 10) << 12 }
  function PteFlags(pte: bv64): bv64 { pte & 0x3FF }
  function PxBits(level: nat, va: bv64): bv64
    requires level <= 2
  {
    if level == 0 then (va >> 12) & 0x1FF
    else if level == 1 then (va >> 21) & 0x1FF
    else (va >> 30) & 0x1FF
  }

  function Decode(pte: bv64): Pte {
    Pte(pte & PTE_V != 0, pte & PTE_R != 0, pte & PTE_W != 0, pte & PTE_X != 0,
        pte & PTE_U != 0, pte & PTE_COW != 0, (pte >> 10) as nat)
  }

  /** uvmcopy's change of the parent's entry: share the page read-only. */
  function ShareBits(pte: bv64): bv64 {
    if pte & PTE_W != 0 then (pte ^ PTE_W) | PTE_COW else pte
  }

  function Share(e: Pte): Pte {
    if e.w then e.(w := false, cow := true) else e
  }

  /** The flags the copy-on-write break gives the private copy. */
  function BreakFlags(flags: bv64): bv64 {
    (flags & !PTE_COW) | PTE_W
  }

  function Break(e: Pte, ppn: nat): Pte {
    e.(w := true, cow := false, ppn := ppn)
  }

  /** A page address and ten flag bits survive being packed into an entry. */
  lemma PackUnpack(pa: bv64, flags: bv64)
    requires pa & 0xFFF == 0 && pa < 0x100_0000_0000_0000
    requires flags & !0x3FF == 0
    ensures Pte2Pa(Pa2Pte(pa) | flags) == pa
    ensures PteFlags(Pa2Pte(pa) | flags) == flags
    ensures (Pa2Pte(pa) | flags) >> 10 == pa >> 12
  {
  }

  lemma ShareBitwise(pte: bv64)
    ensures var s := ShareBits(pte);
            && s >> 10 == pte >> 10
            && (s & PTE_W == 0) && (s & PTE_COW != 0 <==> pte & PTE_W != 0 || pte & PTE_COW != 0)
            && s & PTE_V == pte & PTE_V && s & PTE_R == pte & PTE_R
            && s & PTE_X == pte & PTE_X && s & PTE_U == pte & PTE_U
  {
  }

  lemma BreakBitwise(pte: bv64, pa: bv64)
    requires pa & 0xFFF == 0 && pa < 0x100_0000_0000_0000
    ensures var s := Pa2Pte(pa) | BreakFlags(PteFlags(pte)) | PTE_V;
            && s >> 10 == pa >> 12
            && s & PTE_W != 0 && s & PTE_COW == 0 && s & PTE_V != 0 && s & PTE_R == pte & PTE_R
            && s & PTE_X == pte & PTE_X && s & PTE_U == pte & PTE_U
  {
  }

  /** Sharing a word is sharing its decoded entry. */
  lemma ShareDecode(pte: bv64)
    ensures Decode(ShareBits(pte)) == Share(Decode(pte))
  {
    ShareBitwise(pte);
    hide ShareBits;
  }

  /** The word mappages stores for a broken page decodes to the broken entry. */
  lemma BreakDecode(pte: bv64, pa: bv64)
    requires pa & 0xFFF == 0 && pa < 0x100_0000_0000_0000
    ensures Decode(Pa2Pte(pa) | BreakFlags(PteFlags(pte)) | PTE_V)
            == Break(Decode(pte), (pa >> 12) as nat).(v := true)
  {
    BreakBitwise(pte, pa);
    hide BreakFlags;
    hide PteFlags;
    hide Pa2Pte;
  }

  /** PX on words is injective on page-aligned addresses below MAXVA. */
  lemma PxBitsInjective(a: bv64, b: bv64)
    requires a < 0x40_0000_0000 && b < 0x40_0000_0000
    requires a & 0xFFF == 0 && b & 0xFFF == 0
    requires PxBits(0, a) == PxBits(0, b) && PxBits(1, a) == PxBits(1, b) && PxBits(2, a) == PxBits(2, b)
    ensures a == b
  {
  }
}
