/**
  The on-disk redo log (kernel/log.c): write_log, write_head, install_trans,
  read_head, recover_from_log and commit, and what a crash at any point leaves behind.

  A disk is a map from block numbers to contents.  A crash stops a list of block
  writes after any prefix; the write in progress may leave arbitrary contents in its
  block, unless that block is the log header, which is written atomically.
 */
module LogDisk {
  import opened Prelude

  /** The contents of a block: data, or the log header's list of home block numbers. */
  datatype Block = Data(bytes: seq<byte>) | Head(blocks: seq<nat>)

  type Disk = map<nat, Block>

  datatype Write = Write(block: nat, data: Block)

  /** Where the log lives: header block `start`, then size - 1 log blocks. */
  datatype Layout = Layout(start: nat, size: nat) {
    predicate InLog(b: nat) { start <= b < start + size }
  }

  /** A transaction: distinct home blocks and the contents each is to get. */
  datatype Txn = Txn(blocks: seq<nat>, data: seq<Block>) {
    ghost predicate Valid(lay: Layout) {
      && |blocks| == |data| && |blocks| < lay.size
      && (forall i, j | 0 <= i < j < |blocks| :: blocks[i] != blocks[j])
      && (forall i | 0 <= i < |blocks| :: !lay.InLog(blocks[i]))
    }
  }

  function Apply(d: Disk, ws: seq<Write>): Disk
    decreases |ws|
  {
    if ws == [] then d else Apply(d[ws[0].block := ws[0].data], ws[1..])
  }

  /** write_log: one write per logged block, into the log area. */
  function LogWrites(lay: Layout, data: seq<Block>): seq<Write> {
    seq(|data|, i requires 0 <= i < |data| => Write(lay.start + 1 + i, data[i]))
  }

  /** install_trans: one write per logged block, to its home. */
  function HomeWrites(t: Txn): seq<Write>
    requires |t.blocks| == |t.data|
  {
    seq(|t.blocks|, i requires 0 <= i < |t.blocks| => Write(t.blocks[i], t.data[i]))
  }

  /** Everything commit() writes, in order. */
  function CommitWrites(lay: Layout, t: Txn): seq<Write>
    requires |t.blocks| == |t.data|
  {
    if t.blocks == [] then []
    else LogWrites(lay, t.data) + [Write(lay.start, Head(t.blocks))] + HomeWrites(t) + [Write(lay.start, Head([]))]
  }

  /** The transaction recovery finds on a disk whose header is readable. */
  function Found(lay: Layout, d: Disk): Txn
    requires HeaderOk(lay, d)
  {
    var bs := d[lay.start].blocks;
    Txn(bs, seq(|bs|, i requires 0 <= i < |bs| => d[lay.start + 1 + i]))
  }

  predicate HeaderOk(lay: Layout, d: Disk) {
    && lay.start in d && d[lay.start].Head?
    && forall b | lay.start < b <= lay.start + |d[lay.start].blocks| :: b in d
  }

  /** Everything recover_from_log() writes. */
  function RecoverWrites(lay: Layout, d: Disk): seq<Write>
    requires HeaderOk(lay, d)
  {
    HomeWrites(Found(lay, d)) + [Write(lay.start, Head([]))]
  }

  /** What a crash leaves of d after k of the writes ws, the next one possibly torn. */
  function Crash(lay: Layout, d: Disk, ws: seq<Write>, k: nat, torn: Option<Block>): Disk
    requires k <= |ws|
  {
    var d' := Apply(d, ws[..k]);
    if k < |ws| && torn.Some? && ws[k].block != lay.start then d'[ws[k].block := torn.value] else d'
  }

  // ---------------------------------------------------------------------
  // Lists of writes

  lemma {:induction false} ApplyAppend(d: Disk, xs: seq<Write>, ys: seq<Write>)
    ensures Apply(d, xs + ys) == Apply(Apply(d, xs), ys)
    decreases |xs|
  {
    if xs == [] {
      assert xs + ys == ys;
    } else {
      assert (xs + ys)[1..] == xs[1..] + ys;
      ApplyAppend(d[xs[0].block := xs[0].data], xs[1..], ys);
    }
  }

  lemma {:induction false} ApplyOutside(d: Disk, ws: seq<Write>, b: nat)
    requires forall i | 0 <= i < |ws| :: ws[i].block != b
    ensures b in Apply(d, ws) <==> b in d
    ensures b in d ==> Apply(d, ws)[b] == d[b]
    decreases |ws|
  {
    if ws != [] {
      ApplyOutside(d[ws[0].block := ws[0].data], ws[1..], b);
    }
  }

  lemma {:induction false} ApplyInside(d: Disk, ws: seq<Write>, i: nat)
    requires i < |ws| && forall j | i < j < |ws| :: ws[j].block != ws[i].block
    ensures ws[i].block in Apply(d, ws) && Apply(d, ws)[ws[i].block] == ws[i].data
    decreases |ws|
  {
    var d' := d[ws[0].block := ws[0].data];
    if i == 0 {
      ApplyOutside(d', ws[1..], ws[0].block);
    } else {
      ApplyInside(d', ws[1..], i - 1);
    }
  }

  // ---------------------------------------------------------------------
  // The three situations a disk can be in

  /** The blocks outside the log are exactly those of the file system image. */
  ghost predicate HomesAre(lay: Layout, d: Disk, home: Disk) {
    forall b | !lay.InLog(b) :: (b in d <==> b in home) && (b in d ==> d[b] == home[b])
  }

  ghost predicate LogArea(lay: Layout, d: Disk) {
    forall b | lay.InLog(b) :: b in d
  }

  /** No transaction on disk: the log is empty and the homes hold the image. */
  ghost predicate Clean(lay: Layout, d: Disk, home: Disk) {
    && LogArea(lay, d) && lay.size > 0 && d[lay.start] == Head([])
    && HomesAre(lay, d, home)
  }

  /** Transaction t is committed but not yet completely installed. */
  ghost predicate Logged(lay: Layout, d: Disk, home: Disk, t: Txn) {
    && LogArea(lay, d) && t.Valid(lay) && d[lay.start] == Head(t.blocks)
    && (forall i | 0 <= i < |t.blocks| :: d[lay.start + 1 + i] == t.data[i])
    && (forall b | !lay.InLog(b) && b !in t.blocks :: (b in d <==> b in home) && (b in d ==> d[b] == home[b]))
  }

  /** The image after transaction t. */
  function Installed(home: Disk, t: Txn): Disk
    requires |t.blocks| == |t.data|
  {
    Apply(home, HomeWrites(t))
  }

  lemma InstalledAt(home: Disk, t: Txn, lay: Layout, b: nat)
    requires t.Valid(lay)
    ensures b !in t.blocks ==>
              (b in Installed(home, t) <==> b in home) && (b in home ==> Installed(home, t)[b] == home[b])
    ensures forall i | 0 <= i < |t.blocks| && t.blocks[i] == b :: b in Installed(home, t)
              && Installed(home, t)[b] == t.data[i]
  {
    var ws := HomeWrites(t);
    if b !in t.blocks {
      ApplyOutside(home, ws, b);
    }
    forall i | 0 <= i < |t.blocks| && t.blocks[i] == b
      ensures b in Installed(home, t) && Installed(home, t)[b] == t.data[i]
    {
      ApplyInside(home, ws, i);
    }
  }

  lemma FoundIs(lay: Layout, d: Disk, home: Disk, t: Txn)
    requires Logged(lay, d, home, t)
    ensures HeaderOk(lay, d) && Found(lay, d) == t
  {
    assert forall b | lay.start < b <= lay.start + |t.blocks| :: lay.InLog(b);
    assert Found(lay, d).data == t.data;
  }

  /** Writes to the log area alone leave a clean disk clean. */
  lemma LogPrefix(lay: Layout, d: Disk, home: Disk, t: Txn, k: nat, torn: Option<Block>)
    requires Clean(lay, d, home) && t.Valid(lay) && k <= |t.data|
    ensures var d' := Apply(d, LogWrites(lay, t.data)[..k]);
            && Clean(lay, d', home)
            && (forall i | 0 <= i < k :: d'[lay.start + 1 + i] == t.data[i])
            && (k < |t.data| && torn.Some? ==> Clean(lay, d'[lay.start + 1 + k := torn.value], home))
  {
    var ws := LogWrites(lay, t.data)[..k];
    var d' := Apply(d, ws);
    forall b: nat | !(lay.start + 1 <= b < lay.start + 1 + k) ensures (b in d' <==> b in d)
      && (b in d ==> d'[b] == d[b]) {
      ApplyOutside(d, ws, b);
    }
    forall i | 0 <= i < k ensures lay.start + 1 + i in d' && d'[lay.start + 1 + i] == t.data[i] {
      ApplyInside(d, ws, i);
    }
    forall b: nat | lay.InLog(b) ensures b in d' {
      if lay.start + 1 <= b < lay.start + 1 + k {
        ApplyInside(d, ws, b - lay.start - 1);
      }
    }
  }

  /** While homes are being written a committed transaction stays committed. */
  lemma HomePrefix(lay: Layout, d: Disk, home: Disk, t: Txn, k: nat, torn: Option<Block>)
    requires Logged(lay, d, home, t) && k <= |t.blocks|
    ensures Logged(lay, Apply(d, HomeWrites(t)[..k]), home, t)
    ensures k < |t.blocks| && torn.Some? ==>
              Logged(lay, Apply(d, HomeWrites(t)[..k])[t.blocks[k] := torn.value], home, t)
    ensures k == |t.blocks| ==> HomesAre(lay, Apply(d, HomeWrites(t)), Installed(home, t))
  {
    var ws := HomeWrites(t)[..k];
    var d' := Apply(d, ws);
    forall b: nat | b !in t.blocks ensures (b in d' <==> b in d) && (b in d ==> d'[b] == d[b]) {
      ApplyOutside(d, ws, b);
    }
    if k == |t.blocks| {
      assert ws == HomeWrites(t);
      forall b: nat | !lay.InLog(b)
        ensures (b in d' <==> b in Installed(home, t)) && (b in d' ==> d'[b] == Installed(home, t)[b])
      {
        InstalledAt(home, t, lay, b);
        InstalledAt(d, t, lay, b);
        if b in t.blocks {
          var i :| 0 <= i < |t.blocks| && t.blocks[i] == b;
        }
      }
    }
  }

  // ---------------------------------------------------------------------
  // A crash during commit, and during recovery

  lemma CommitSplit(lay: Layout, t: Txn)
    requires |t.blocks| == |t.data| && t.blocks != []
    ensures var n, ws := |t.blocks|, CommitWrites(lay, t);
            && |ws| == 2 * n + 2
            && (forall k: nat | k <= n :: ws[..k] == LogWrites(lay, t.data)[..k])
            && (forall k: nat | n + 1 <= k <= 2 * n + 1 ::
                  ws[..k] == LogWrites(lay, t.data) + [Write(lay.start, Head(t.blocks))] + HomeWrites(t)[..k - n - 1])
            && (forall i | 0 <= i < n :: ws[i] == LogWrites(lay, t.data)[i] && ws[n + 1 + i] == HomeWrites(t)[i])
            && ws[n].block == lay.start && ws[2 * n + 1].block == lay.start
  {
  }

  /** The disk right after the header write: the transaction is committed. */
  lemma CommitPoint(lay: Layout, d: Disk, home: Disk, t: Txn)
    requires Clean(lay, d, home) && t.Valid(lay) && t.blocks != []
    ensures Logged(lay, Apply(d, LogWrites(lay, t.data) + [Write(lay.start, Head(t.blocks))]), home, t)
  {
    var ws := LogWrites(lay, t.data);
    LogPrefix(lay, d, home, t, |t.data|, None);
    assert ws[..|t.data|] == ws;
    ApplyAppend(d, ws, [Write(lay.start, Head(t.blocks))]);
    var d1 := Apply(d, ws);
    assert Apply(d1, [Write(lay.start, Head(t.blocks))]) == d1[lay.start := Head(t.blocks)];
  }

  lemma ClearHead(lay: Layout, d: Disk, home: Disk, t: Txn, ws: seq<Write>)
    requires Logged(lay, Apply(d, ws), home, t) && HomesAre(lay, Apply(d, ws), Installed(home, t))
    ensures Clean(lay, Apply(d, ws + [Write(lay.start, Head([]))]), Installed(home, t))
  {
    ApplyAppend(d, ws, [Write(lay.start, Head([]))]);
    var d1 := Apply(d, ws);
    assert Apply(d1, [Write(lay.start, Head([]))]) == d1[lay.start := Head([])];
  }

  /**
    A crash anywhere in commit() leaves the old image behind an empty log if the header
    was not written, and otherwise the committed transaction or the new image.
   */
  lemma CommitCrash(lay: Layout, d: Disk, home: Disk, t: Txn, k: nat, torn: Option<Block>)
    requires Clean(lay, d, home) && t.Valid(lay) && t.blocks != [] && k <= 2 * |t.blocks| + 2
    ensures |CommitWrites(lay, t)| == 2 * |t.blocks| + 2
    ensures var d' := Crash(lay, d, CommitWrites(lay, t), k, torn);
            if k <= |t.blocks| then Clean(lay, d', home)
            else if k <= 2 * |t.blocks| + 1 then Logged(lay, d', home, t)
            else Clean(lay, d', Installed(home, t))
  {
    var n, ws := |t.blocks|, CommitWrites(lay, t);
    CommitSplit(lay, t);
    if k <= n {
      LogPrefix(lay, d, home, t, k, torn);
    } else {
      var pre := LogWrites(lay, t.data) + [Write(lay.start, Head(t.blocks))];
      CommitPoint(lay, d, home, t);
      var j := if k <= 2 * n + 1 then k - n - 1 else n;
      HomePrefix(lay, Apply(d, pre), home, t, j, torn);
      ApplyAppend(d, pre, HomeWrites(t)[..j]);
      if k == 2 * n + 2 {
        assert HomeWrites(t)[..n] == HomeWrites(t);
        ClearHead(lay, d, home, t, pre + HomeWrites(t));
        assert ws[..k] == pre + HomeWrites(t) + [Write(lay.start, Head([]))];
      }
    }
  }

  /** A crash anywhere in recovery leaves the same image, or a committed transaction still to be installed. */
  lemma RecoverCrash(lay: Layout, d: Disk, home: Disk, k: nat, torn: Option<Block>)
    requires Clean(lay, d, home) && k <= 1
    ensures HeaderOk(lay, d) && |RecoverWrites(lay, d)| == 1
    ensures Clean(lay, Crash(lay, d, RecoverWrites(lay, d), k, torn), home)
  {
    var ws := RecoverWrites(lay, d);
    assert Found(lay, d) == Txn([], []);
    assert ws == [Write(lay.start, Head([]))];
    assert ws[..0] == [] && ws[..1] == ws;
    assert Apply(d, ws) == d[lay.start := Head([])];
  }

  lemma RecoverLoggedCrash(lay: Layout, d: Disk, home: Disk, t: Txn, k: nat, torn: Option<Block>)
    requires Logged(lay, d, home, t) && k <= |t.blocks| + 1
    ensures HeaderOk(lay, d) && |RecoverWrites(lay, d)| == |t.blocks| + 1
    ensures var d' := Crash(lay, d, RecoverWrites(lay, d), k, torn);
            if k <= |t.blocks| then Logged(lay, d', home, t) else Clean(lay, d', Installed(home, t))
  {
    FoundIs(lay, d, home, t);
    var n, ws := |t.blocks|, RecoverWrites(lay, d);
    var j := if k <= n then k else n;
    HomePrefix(lay, d, home, t, j, torn);
    assert ws[..j] == HomeWrites(t)[..j];
    if k == n + 1 {
      assert HomeWrites(t)[..n] == HomeWrites(t);
      ClearHead(lay, d, home, t, HomeWrites(t));
      assert ws[..k] == ws;
    }
  }

  // ---------------------------------------------------------------------
  // Whole runs of commits, crashes and recoveries

  datatype Event =
    | Commit(t: Txn)
    | CommitCut(t: Txn, k: nat, torn: Option<Block>)
    | Recover
    | RecoverCut(k: nat, torn: Option<Block>)

  /** A disk, and whether the machine is up (recovery finished) or has crashed. */
  datatype System = System(disk: Disk, up: bool)

  /** Events that can happen: commits while up, recovery attempts after a crash. */
  ghost predicate Enabled(lay: Layout, s: System, e: Event) {
    match e
    case Commit(t) => s.up && t.Valid(lay)
    case CommitCut(t, k, _) => s.up && t.Valid(lay) && k <= |CommitWrites(lay, t)|
    case Recover => !s.up && HeaderOk(lay, s.disk)
    case RecoverCut(k, _) => !s.up && HeaderOk(lay, s.disk) && k <= |RecoverWrites(lay, s.disk)|
  }

  ghost function Next(lay: Layout, s: System, e: Event): System
    requires Enabled(lay, s, e)
  {
    match e
    case Commit(t) => System(Apply(s.disk, CommitWrites(lay, t)), true)
    case CommitCut(t, k, torn) => System(Crash(lay, s.disk, CommitWrites(lay, t), k, torn), false)
    case Recover => System(Apply(s.disk, RecoverWrites(lay, s.disk)), true)
    case RecoverCut(k, torn) => System(Crash(lay, s.disk, RecoverWrites(lay, s.disk), k, torn), false)
  }

  /** The promised image: a cut commit counts exactly when its header write happened. */
  ghost function Promise(home: Disk, e: Event): Disk
    requires e.Commit? || e.CommitCut? ==> |e.t.blocks| == |e.t.data|
  {
    match e
    case Commit(t) => Installed(home, t)
    case CommitCut(t, k, _) => if k > |t.blocks| then Installed(home, t) else home
    case _ => home
  }

  /** While up the disk holds the image; after a crash it holds it or the log completes it. */
  ghost predicate Represents(lay: Layout, s: System, home: Disk) {
    || Clean(lay, s.disk, home)
    || (!s.up && exists before, t :: CompletesTo(lay, s.disk, before, t, home))
  }

  ghost predicate CompletesTo(lay: Layout, d: Disk, before: Disk, t: Txn, home: Disk) {
    Logged(lay, d, before, t) && Installed(before, t) == home
  }

  lemma StepRepresents(lay: Layout, s: System, e: Event, home: Disk)
    requires Represents(lay, s, home) && Enabled(lay, s, e)
    ensures Represents(lay, Next(lay, s, e), Promise(home, e))
  {
    var s' := Next(lay, s, e);
    match e
    case Commit(t) =>
      if t.blocks == [] {
        assert CommitWrites(lay, t) == [] && HomeWrites(t) == [];
      } else {
        var ws := CommitWrites(lay, t);
        CommitCrash(lay, s.disk, home, t, 2 * |t.blocks| + 2, None);
        assert ws[..|ws|] == ws;
      }
    case CommitCut(t, k, torn) =>
      if t.blocks == [] {
        assert CommitWrites(lay, t)[..0] == [];
      } else {
        CommitCrash(lay, s.disk, home, t, k, torn);
        if |t.blocks| < k <= 2 * |t.blocks| + 1 {
          assert CompletesTo(lay, s'.disk, home, t, Installed(home, t));
        }
      }
    case Recover =>
      RecoverStep(lay, s, home, |RecoverWrites(lay, s.disk)|, None);
      var ws := RecoverWrites(lay, s.disk);
      assert ws[..|ws|] == ws;
    case RecoverCut(k, torn) =>
      RecoverStep(lay, s, home, k, torn);
  }

  lemma RecoverStep(lay: Layout, s: System, home: Disk, k: nat, torn: Option<Block>)
    requires Represents(lay, s, home) && HeaderOk(lay, s.disk) && k <= |RecoverWrites(lay, s.disk)|
    ensures var d' := Crash(lay, s.disk, RecoverWrites(lay, s.disk), k, torn);
            && Represents(lay, System(d', false), home)
            && (k == |RecoverWrites(lay, s.disk)| ==> Clean(lay, d', home))
  {
    if Clean(lay, s.disk, home) {
      assert Found(lay, s.disk) == Txn([], []);
      RecoverCrash(lay, s.disk, home, k, torn);
    } else {
      var before, t :| CompletesTo(lay, s.disk, before, t, home);
      FoundIs(lay, s.disk, before, t);
      RecoverLoggedCrash(lay, s.disk, before, t, k, torn);
      if k <= |t.blocks| {
        assert CompletesTo(lay, Crash(lay, s.disk, RecoverWrites(lay, s.disk), k, torn), before, t, home);
      }
    }
  }

  ghost predicate EnabledRun(lay: Layout, s: System, es: seq<Event>)
    decreases |es|
  {
    es == [] || (Enabled(lay, s, es[0]) && EnabledRun(lay, Next(lay, s, es[0]), es[1..]))
  }

  ghost function Final(lay: Layout, s: System, es: seq<Event>): System
    requires EnabledRun(lay, s, es)
    decreases |es|
  {
    if es == [] then s else Final(lay, Next(lay, s, es[0]), es[1..])
  }

  ghost function PromisedBy(lay: Layout, s: System, home: Disk, es: seq<Event>): Disk
    requires EnabledRun(lay, s, es)
    decreases |es|
  {
    if es == [] then home else PromisedBy(lay, Next(lay, s, es[0]), Promise(home, es[0]), es[1..])
  }

  /**
    Crash atomicity over whole runs: whenever the machine is up, the file system image is
    the result of exactly the transactions whose header write happened, in order.
   */
  lemma {:induction false} CrashAtomicity(lay: Layout, s: System, home: Disk, es: seq<Event>)
    requires Represents(lay, s, home) && EnabledRun(lay, s, es)
    ensures Represents(lay, Final(lay, s, es), PromisedBy(lay, s, home, es))
    ensures Final(lay, s, es).up ==> HomesAre(lay, Final(lay, s, es).disk, PromisedBy(lay, s, home, es))
    decreases |es|
  {
    if es != [] {
      StepRepresents(lay, s, es[0], home);
      CrashAtomicity(lay, Next(lay, s, es[0]), Promise(home, es[0]), es[1..]);
    }
  }

  /** Recovery can always be started: a represented disk has a readable header. */
  lemma AlwaysRecoverable(lay: Layout, s: System, home: Disk)
    requires Represents(lay, s, home) && !s.up
    ensures Enabled(lay, s, Recover)
  {
    if !Clean(lay, s.disk, home) {
      var before, t :| CompletesTo(lay, s.disk, before, t, home);
      FoundIs(lay, s.disk, before, t);
    }
  }
}
