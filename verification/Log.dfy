/**
  The logging code of kernel/log.c as it runs: the in-memory log, the loops that copy
  blocks, and the disk writes they issue, in order.  `cache` holds what bread returns
  for a block; blocks that are not cached come from the disk.
 */
module Log {
  import opened Prelude
  import opened LogDisk
  import Ops = LogOps

  class Log {
    const lay: Layout
    var outstanding: int
    var committing: bool
    var lh: seq<nat>
    var disk: Disk
    var cache: Disk

    ghost var trace: seq<Write>
    ghost var active: Ops.Blocks
    ghost var finished: Ops.Blocks
    ghost var history: seq<Ops.Group>

    /** A log that has just been set up over a disk, with nothing cached. */
    constructor (layout: Layout, image: Disk)
      ensures lay == layout && disk == image && cache == map[] && trace == []
      ensures State() == Ops.Init(layout.size)
    {
      lay := layout;
      outstanding, committing, lh := 0, false, [];
      disk, cache, trace := image, map[], [];
      active, finished, history := map[], map[], [];
    }

    ghost function State(): Ops.LogState
      reads this
    {
      Ops.LogState(lay.size, outstanding, committing, lh, active, finished, history)
    }

    ghost predicate Readable(b: nat)
      reads this
    {
      b in cache || b in disk
    }

    /** What bread returns for a block. */
    function Latest(b: nat): Block
      requires Readable(b)
      reads this
    {
      if b in cache then cache[b] else disk[b]
    }

    static predicate Holds(cache: Disk, disk: Disk, b: nat, data: Block) {
      if b in cache then cache[b] == data else b in disk && disk[b] == data
    }

    static predicate LogBlock(lay: Layout, cache: Disk, disk: Disk, data: seq<Block>, i: nat)
      requires i < |data|
    {
      Holds(cache, disk, lay.start + 1 + i, data[i])
    }

    /** The first n log blocks hold the given contents. */
    ghost predicate LogHolds(data: seq<Block>, n: nat)
      requires n <= |data|
      reads this
    {
      forall i | 0 <= i < n :: LogBlock(lay, cache, disk, data, i)
    }

    /** bwrite: the buffer's contents go to disk. */
    method Bwrite(b: nat, data: Block)
      modifies this`disk, this`cache, this`trace
      ensures disk == old(disk)[b := data] && cache == old(cache)[b := data]
      ensures trace == old(trace) + [Write(b, data)]
    {
      cache := cache[b := data];
      disk := disk[b := data];
      trace := trace + [Write(b, data)];
    }

    /** The transaction in memory: the logged blocks with their latest contents. */
    ghost function Pending(): Txn
      requires forall i | 0 <= i < |lh| :: Readable(lh[i])
      reads this
    {
      Txn(lh, seq(|lh|, i requires 0 <= i < |lh| reads this requires Readable(lh[i]) => Latest(lh[i])))
    }

    ghost predicate CanCommit()
      reads this
    {
      && (forall i | 0 <= i < |lh| :: Readable(lh[i]))
      && Pending().Valid(lay)
    }

    method WriteLog()
      requires CanCommit()
      modifies this`disk, this`cache, this`trace
      ensures trace == old(trace) + LogWrites(lay, old(Pending()).data)
      ensures disk == Apply(old(disk), LogWrites(lay, old(Pending()).data))
      ensures CanCommit() && Pending() == old(Pending())
      ensures LogHolds(Pending().data, |lh|)
    {
      ghost var t := Pending();
      ghost var ws := LogWrites(lay, t.data);
      var tail := 0;
      while tail < |lh|
        invariant 0 <= tail <= |lh|
        invariant trace == old(trace) + ws[..tail] && disk == Apply(old(disk), ws[..tail])
        invariant forall i | 0 <= i < |lh| :: Holds(cache, disk, lh[i], t.data[i])
        invariant LogHolds(t.data, tail)
      {
        var from := Latest(lh[tail]);
        ghost var c, d := cache, disk;
        Bwrite(lay.start + 1 + tail, from);
        assert ws[..tail + 1] == ws[..tail] + [ws[tail]];
        ApplyAppend(old(disk), ws[..tail], [ws[tail]]);
        forall i | 0 <= i < tail + 1 ensures LogBlock(lay, cache, disk, t.data, i) {
          if i < tail { assert LogBlock(lay, c, d, t.data, i); }
        }
        tail := tail + 1;
      }
      assert ws[..|lh|] == ws;
      assert Pending().data == t.data;
    }

    method WriteHead()
      modifies this`disk, this`cache, this`trace
      ensures trace == old(trace) + [Write(lay.start, Head(lh))]
      ensures disk == old(disk)[lay.start := Head(lh)] && cache == old(cache)[lay.start := Head(lh)]
    {
      Bwrite(lay.start, Head(lh));
    }

    /** Copies the log blocks to the homes of t. */
    method InstallTrans(ghost t: Txn)
      requires t.Valid(lay) && t.blocks == lh
      requires LogHolds(t.data, |lh|)
      modifies this`disk, this`cache, this`trace
      ensures trace == old(trace) + HomeWrites(t) && disk == Apply(old(disk), HomeWrites(t))
    {
      ghost var ws := HomeWrites(t);
      var tail := 0;
      while tail < |lh|
        invariant 0 <= tail <= |lh|
        invariant trace == old(trace) + ws[..tail] && disk == Apply(old(disk), ws[..tail])
        invariant LogHolds(t.data, |lh|)
      {
        assert LogBlock(lay, cache, disk, t.data, tail);
        var lbuf := Latest(lay.start + 1 + tail);
        ghost var c, d := cache, disk;
        Bwrite(lh[tail], lbuf);
        assert ws[..tail + 1] == ws[..tail] + [ws[tail]];
        ApplyAppend(old(disk), ws[..tail], [ws[tail]]);
        forall i | 0 <= i < |lh| ensures LogBlock(lay, cache, disk, t.data, i) {
          assert LogBlock(lay, c, d, t.data, i);
        }
        tail := tail + 1;
      }
      assert ws[..|lh|] == ws;
    }

    /** commit() issues exactly the writes of CommitWrites, in that order. */
    method Commit()
      requires CanCommit()
      modifies this`disk, this`cache, this`trace, this`lh
      ensures lh == []
      ensures trace == old(trace) + CommitWrites(lay, old(Pending()))
      ensures disk == Apply(old(disk), CommitWrites(lay, old(Pending())))
    {
      if |lh| > 0 {
        ghost var t := Pending();
        ghost var w1, w2, w3, w4 := LogWrites(lay, t.data), [Write(lay.start, Head(t.blocks))], HomeWrites(t),
          [Write(lay.start, Head([]))];
        WriteLog();
        ghost var c, d := cache, disk;
        WriteHead();
        forall i | 0 <= i < |lh| ensures LogBlock(lay, cache, disk, t.data, i) {
          assert LogBlock(lay, c, d, t.data, i);
        }
        ApplyAppend(old(disk), w1, w2);
        InstallTrans(t);
        ApplyAppend(old(disk), w1 + w2, w3);
        lh := [];
        WriteHead();
        ApplyAppend(old(disk), w1 + w2 + w3, w4);
      }
    }

    /** read_head: the header block tells which transaction, if any, was committed. */
    method ReadHead()
      requires cache == map[] && HeaderOk(lay, disk)
      modifies this`lh
      ensures lh == disk[lay.start].blocks
    {
      lh := disk[lay.start].blocks;
    }

    /** recover_from_log() issues exactly the writes of RecoverWrites, in that order. */
    method RecoverFromLog()
      requires cache == map[] && HeaderOk(lay, disk) && Found(lay, disk).Valid(lay)
      modifies this`disk, this`cache, this`trace, this`lh
      ensures lh == []
      ensures trace == old(trace) + RecoverWrites(lay, old(disk))
      ensures disk == Apply(old(disk), RecoverWrites(lay, old(disk)))
    {
      ghost var t := Found(lay, disk);
      ReadHead();
      InstallTrans(t);
      lh := [];
      WriteHead();
      ApplyAppend(old(disk), HomeWrites(t), [Write(lay.start, Head([]))]);
    }

    // -------------------------------------------------------------------
    // Operations

    /** One round of begin_op's loop: the caller enters, or goes to sleep and nothing changes. */
    method BeginOp(ghost op: nat) returns (entered: bool)
      requires Ops.Fresh(State(), op)
      modifies this`outstanding, this`active
      ensures entered <==> !committing && |lh| + (old(outstanding) + 1) * MAXOPBLOCKS <= LOGSIZE
      ensures entered <==> old(Ops.Enabled(State(), Ops.Begin(op)))
      ensures outstanding == old(outstanding) + if entered then 1 else 0
      ensures State() == if entered then Ops.Next(old(State()), Ops.Begin(op)) else old(State())
    {
      if committing {
        return false;
      } else if |lh| + (outstanding + 1) * MAXOPBLOCKS > LOGSIZE {
        return false;
      }
      outstanding := outstanding + 1;
      active := active[op := {}];
      return true;
    }

    /** log_write: false where the source panics because the transaction is too big. */
    method LogWrite(ghost op: nat, b: nat) returns (ok: bool)
      requires Ops.Inv(State()) && Ops.WithinBudget(State(), op, b)
      modifies this`lh, this`active
      ensures ok <==> |old(lh)| < LOGSIZE && |old(lh)| < lay.size - 1
      ensures ok <==> old(Ops.Enabled(State(), Ops.LogWrite(op, b)))
      ensures lh == if ok && b !in old(lh) then old(lh) + [b] else old(lh)
      ensures State() == if ok then Ops.Next(old(State()), Ops.LogWrite(op, b)) else old(State())
    {
      if |lh| >= LOGSIZE || |lh| >= lay.size - 1 {
        return false;
      }
      assert op in active;
      assert outstanding >= 1;   // panic("log_write outside of trans") is unreachable
      var i := 0;
      while i < |lh|
        invariant 0 <= i <= |lh| && b !in lh[..i]
      {
        if lh[i] == b {
          break;
        }
        i := i + 1;
      }
      if i == |lh| {
        assert lh[..i] == lh;
        lh := lh + [b];
      } else {
        lh := lh[i := b];
      }
      active := active[op := active[op] + {b}];
      return true;
    }

    /** The first half of end_op: the last operation to leave must commit. */
    method EndOp(ghost op: nat) returns (doCommit: bool)
      requires Ops.Inv(State()) && op in active
      modifies this`outstanding, this`committing, this`active, this`finished
      ensures State() == Ops.Next(old(State()), Ops.End(op))
      ensures doCommit <==> old(outstanding) == 1
      ensures doCommit <==> committing
    {
      outstanding := outstanding - 1;
      assert op in active && !committing;   // panic("log.committing") is unreachable
      doCommit := false;
      if outstanding == 0 {
        doCommit := true;
        committing := true;
      }
      finished := finished[op := active[op]];
      active := active - {op};
    }

    /** What the file system asks of the log: it logs blocks that exist and are not the log's own. */
    ghost predicate HomeBlocks()
      reads this
    {
      lay.size > 0 && forall i | 0 <= i < |lh| :: Readable(lh[i]) && !lay.InLog(lh[i])
    }

    /** The second half of end_op: commit, then let waiting operations in. */
    method CommitAndRelease()
      requires Ops.Inv(State()) && committing && HomeBlocks()
      modifies this`disk, this`cache, this`trace, this`lh, this`committing, this`finished, this`history
      ensures State() == Ops.Next(old(State()), Ops.CommitDone)
      ensures !committing && lh == []
      ensures old(Pending()).Valid(lay) && old(Pending()).blocks == old(lh)
      ensures disk == Apply(old(disk), CommitWrites(lay, old(Pending())))
      ensures trace == old(trace) + CommitWrites(lay, old(Pending()))
    {
      ghost var group := Ops.Group(finished, set b | b in lh);
      Commit();
      committing := false;
      finished := map[];
      history := history + [group];
    }
  }

  // ---------------------------------------------------------------------
  // Operations and crashes

  /** Attempts at recovery, each but the last cut short by another crash. */
  ghost predicate Recoveries(es: seq<Event>) {
    forall i | 0 <= i < |es| :: es[i].Recover? || es[i].RecoverCut?
  }

  lemma {:induction false} RecoveriesPromise(lay: Layout, s: System, home: Disk, es: seq<Event>)
    requires EnabledRun(lay, s, es) && Recoveries(es)
    ensures PromisedBy(lay, s, home, es) == home
    decreases |es|
  {
    if es != [] {
      assert Promise(home, es[0]) == home;
      RecoveriesPromise(lay, Next(lay, s, es[0]), home, es[1..]);
    }
  }

  /** Block b of d is as in the image. */
  ghost predicate AsIn(d: Disk, image: Disk, b: nat) {
    (b in d <==> b in image) && (b in d ==> d[b] == image[b])
  }

  /**
    Operations are atomic: commit is cut after k writes, the next one torn, and recovery is
    run, crashed and run again until it finishes.  Then every operation of the transaction
    has all its blocks on disk as the transaction left them, or all as they were before,
    and which of the two depends only on whether the header had been written.
   */
  lemma OperationsAtomic(s: Ops.LogState, lay: Layout, d: Disk, home: Disk, t: Txn, k: nat, torn: Option<Block>,
                         es: seq<Event>, op: nat)
    requires Ops.Inv(s) && s.committing && op in s.finished && t.blocks == s.lh && t.Valid(lay) && Clean(lay, d, home)
    requires k <= |CommitWrites(lay, t)| && Recoveries(es)
    requires var c := System(Crash(lay, d, CommitWrites(lay, t), k, torn), false);
             EnabledRun(lay, c, es) && Final(lay, c, es).up
    ensures var f := Final(lay, System(Crash(lay, d, CommitWrites(lay, t), k, torn), false), es).disk;
            forall b | b in s.finished[op] :: b in t.blocks
              && AsIn(f, if k > |t.blocks| then Installed(home, t) else home, b)
  {
    hide Installed, CommitWrites, Crash;
    var c := System(Crash(lay, d, CommitWrites(lay, t), k, torn), false);
    var up := System(d, true);
    var image := if k > |t.blocks| then Installed(home, t) else home;
    assert Next(lay, up, CommitCut(t, k, torn)) == c;
    StepRepresents(lay, up, CommitCut(t, k, torn), home);
    RecoveriesPromise(lay, c, image, es);
    CrashAtomicity(lay, c, image, es);
    forall b | b in s.finished[op] ensures b in t.blocks && AsIn(Final(lay, c, es).disk, image, b) {
      assert b in Ops.All(s.finished);
      assert b in s.lh;
      var i :| 0 <= i < |t.blocks| && t.blocks[i] == b;
      assert !lay.InLog(b);
    }
  }

  /** A whole transaction installs all its contents, so none of its operations is there in part. */
  lemma WholeTransaction(lay: Layout, home: Disk, t: Txn, i: nat)
    requires t.Valid(lay) && i < |t.blocks|
    ensures t.blocks[i] in Installed(home, t) && Installed(home, t)[t.blocks[i]] == t.data[i]
  {
    InstalledAt(home, t, lay, t.blocks[i]);
  }
}
