/**
  The bytes of the log header (kernel/log.c: struct logheader, write_head) and a disk of
  sectors seen as the disk of the crash proofs.
 */
module LogHead {
  import opened Prelude
  import opened Words
  import L = LogDisk

  /** A header block: the number of blocks, then the blocks.  One with a larger number is not readable. */
  function HeadBlock(s: Sector): L.Block {
    if Word(s, 0) <= LOGSIZE then L.Head(seq(Word(s, 0), i requires 0 <= i < LOGSIZE => Word(s, 4 + 4 * i)))
      else L.Data(s)
  }

  /** The first n block numbers have been stored, after their count. */
  predicate HeadUpTo(s: Sector, blocks: seq<nat>, n: nat) {
    && |blocks| <= LOGSIZE && n <= |blocks| && Word(s, 0) == |blocks|
    && forall j | 0 <= j < n :: Word(s, 4 + 4 * j) == blocks[j]
  }

  lemma HeadStart(s: Sector, blocks: seq<nat>)
    requires |blocks| <= LOGSIZE
    ensures HeadUpTo(PutWord(s, 0, |blocks|), blocks, 0)
  {
    WordBack(s, 0, |blocks|);
  }

  lemma HeadMore(s: Sector, blocks: seq<nat>, n: nat)
    requires HeadUpTo(s, blocks, n) && n < |blocks| && blocks[n] < UINT
    ensures HeadUpTo(PutWord(s, 4 + 4 * n, blocks[n]), blocks, n + 1)
  {
    hide Word, PutWord;
    var s' := PutWord(s, 4 + 4 * n, blocks[n]);
    WordBack(s, 4 + 4 * n, blocks[n]);
    PutElsewhere(s, 4 + 4 * n, blocks[n], 0);
    forall j | 0 <= j < n ensures Word(s', 4 + 4 * j) == blocks[j] {
      PutElsewhere(s, 4 + 4 * n, blocks[n], 4 + 4 * j);
    }
  }

  lemma PutElsewhere(s: Sector, o: nat, v: nat, p: nat)
    requires o + 4 <= BSIZE && p + 4 <= BSIZE && (p + 4 <= o || o + 4 <= p)
    ensures Word(PutWord(s, o, v), p) == Word(s, p)
  {
    WordElsewhere(s, o, Bytes4(v), p);
  }

  /** What is read from a header block is what was written to it. */
  lemma HeadBack(s: Sector, blocks: seq<nat>)
    requires HeadUpTo(s, blocks, |blocks|)
    ensures HeadBlock(s) == L.Head(blocks)
  {
    hide Word;
    assert HeadBlock(s).blocks == blocks;
  }

  /** Sector x in the terms of the crash proofs; the log starts at sector `start`. */
  function Decoded(start: nat, x: nat, s: Sector): L.Block {
    if x == start then HeadBlock(s) else L.Data(s)
  }
}
