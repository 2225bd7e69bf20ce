/**
  What several parts share: the optional value, the byte, the sizes of kernel/param.h and
  kernel/fs.h, and a few facts about collections.
 */
module Prelude {

  datatype Option<T> = None | Some(value: T)

  newtype byte = x: int | 0 <= x < 256

  /** Bytes per disk block, blocks an operation may log, blocks in the log, blocks in the file system. */
  const BSIZE: nat := 1024
  const MAXOPBLOCKS: nat := 10
  const LOGSIZE: nat := 3 * MAXOPBLOCKS
  const FSSIZE: nat := 2000

  /** One past the largest 32-bit number. */
  const UINT: nat := 0x1_0000_0000

  /** The contents of one disk block. */
  type Sector = s: seq<byte> | |s| == BSIZE witness seq(BSIZE, _ => 0)

  function Zeros(): Sector { seq(BSIZE, _ => 0) }

  predicate NoDup(s: seq<nat>) {
    forall i, j | 0 <= i < j < |s| :: s[i] != s[j]
  }

  /** The numbers from lo up to but not including hi. */
  function Range(lo: nat, hi: nat): (r: set<nat>)
    requires lo <= hi
    ensures |r| == hi - lo && forall x: nat :: x in r <==> lo <= x < hi
    decreases hi - lo
  {
    if lo == hi then {} else Range(lo, hi - 1) + {hi - 1}
  }

  lemma SubsetSize<T>(a: set<T>, b: set<T>)
    requires a <= b
    ensures |a| <= |b|
  {
    assert b == a + (b - a);
  }
}
