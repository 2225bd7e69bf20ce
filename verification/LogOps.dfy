/**
  Group commit (kernel/log.c: begin_op, end_op, log_write): any number of file-system
  operations, interleaved in any order, share transactions.

  The state is the in-memory log plus three auxiliary records: which blocks each active
  operation has logged, which operations of the current transaction have finished, and
  the committed transactions.  A caller that has to sleep is a step that is not enabled.
 */
module LogOps {
  import opened Prelude

  type Blocks = map<nat, set<nat>>

  datatype Group = Group(ops: Blocks, blocks: set<nat>)

  datatype LogState = LogState(
    size: nat,
    outstanding: int,
    committing: bool,
    lh: seq<nat>,
    active: Blocks,
    finished: Blocks,
    history: seq<Group>)

  datatype Step = Begin(op: nat) | LogWrite(op: nat, b: nat) | End(op: nat) | CommitDone

  function Init(size: nat): LogState {
    LogState(size, 0, false, [], map[], map[], [])
  }

  /** log_write's first test: "too big a transaction". */
  predicate TooBig(s: LogState) {
    |s.lh| >= LOGSIZE || |s.lh| >= s.size - 1
  }

  ghost predicate Fresh(s: LogState, op: nat) {
    op !in s.active && op !in s.finished && forall i | 0 <= i < |s.history| :: op !in s.history[i].ops
  }

  /** An operation may log at most MAXOPBLOCKS distinct blocks. */
  ghost predicate WithinBudget(s: LogState, op: nat, b: nat) {
    op in s.active && |s.active[op] + {b}| <= MAXOPBLOCKS
  }

  ghost predicate Enabled(s: LogState, step: Step) {
    match step
    case Begin(op) => Fresh(s, op) && !s.committing && |s.lh| + (s.outstanding + 1) * MAXOPBLOCKS <= LOGSIZE
    case LogWrite(op, b) => WithinBudget(s, op, b) && !TooBig(s)
    case End(op) => op in s.active
    case CommitDone => s.committing
  }

  function Next(s: LogState, step: Step): LogState {
    match step
    case Begin(op) => s.(outstanding := s.outstanding + 1, active := s.active[op := {}])
    case LogWrite(op, b) =>
      s.(lh := if b in s.lh then s.lh else s.lh + [b],
         active := if op in s.active then s.active[op := s.active[op] + {b}] else s.active)
    case End(op) =>
      s.(outstanding := s.outstanding - 1,
         committing := s.committing || s.outstanding - 1 == 0,
         active := s.active - {op},
         finished := if op in s.active then s.finished[op := s.active[op]] else s.finished)
    case CommitDone =>
      s.(committing := false, lh := [], finished := map[],
         history := s.history + [Group(s.finished, set b | b in s.lh)])
  }

  ghost predicate EnabledRun(s: LogState, run: seq<Step>)
    decreases |run|
  {
    run == [] || (Enabled(s, run[0]) && EnabledRun(Next(s, run[0]), run[1..]))
  }

  function After(s: LogState, run: seq<Step>): LogState
    decreases |run|
  {
    if run == [] then s else After(Next(s, run[0]), run[1..])
  }

  lemma RunCons(s: LogState, run: seq<Step>)
    requires EnabledRun(s, run) && run != []
    ensures Enabled(s, run[0]) && EnabledRun(Next(s, run[0]), run[1..])
    ensures After(s, run) == After(Next(s, run[0]), run[1..])
  {
  }

  lemma RunNil(s: LogState, op: nat)
    ensures EnabledRun(s, []) && After(s, []) == s && LoggedBy([], op) == {}
  {
  }

  // ---------------------------------------------------------------------
  // Reserved space

  /** The blocks the active operations may still log. */
  ghost function Unused(active: Blocks): int
    decreases |active|
  {
    if active == map[] then 0
    else
      var op :| op in active;
      (MAXOPBLOCKS - |active[op]|) + Unused(active - {op})
  }

  /** The sum does not depend on the order in which operations are counted. */
  lemma {:induction false} UnusedSplit(active: Blocks, op: nat)
    requires op in active
    ensures Unused(active) == (MAXOPBLOCKS - |active[op]|) + Unused(active - {op})
    decreases |active|
  {
    var first :| first in active && Unused(active) == (MAXOPBLOCKS - |active[first]|) + Unused(active - {first});
    if first != op {
      UnusedSplit(active - {first}, op);
      UnusedSplit(active - {op}, first);
      assert active - {first} - {op} == active - {op} - {first};
    }
  }

  lemma {:induction false} UnusedNonneg(active: Blocks)
    requires forall op | op in active :: |active[op]| <= MAXOPBLOCKS
    ensures Unused(active) >= 0
    decreases |active|
  {
    if active != map[] {
      var op :| op in active;
      UnusedSplit(active, op);
      UnusedNonneg(active - {op});
    }
  }

  lemma UnusedBegin(active: Blocks, op: nat)
    requires op !in active
    ensures Unused(active[op := {}]) == Unused(active) + MAXOPBLOCKS
    ensures |active[op := {}]| == |active| + 1
  {
    UnusedSplit(active[op := {}], op);
    assert active[op := {}] - {op} == active;
  }

  lemma UnusedWrite(active: Blocks, op: nat, b: nat)
    requires op in active
    ensures Unused(active[op := active[op] + {b}]) == Unused(active) - (if b in active[op] then 0 else 1)
    ensures |active[op := active[op] + {b}]| == |active|
  {
    var next := active[op := active[op] + {b}];
    UnusedSplit(active, op);
    UnusedSplit(next, op);
    assert next - {op} == active - {op};
    assert next.Keys == active.Keys;
    if b in active[op] {
      assert active[op] + {b} == active[op];
    }
  }

  // ---------------------------------------------------------------------
  // The invariant

  /** All blocks logged by a set of operations. */
  ghost function All(ops: Blocks): set<nat> {
    set op, b | op in ops && b in ops[op] :: b
  }

  /** The log fits: what is logged plus what the active operations may still log. */
  ghost predicate Reserved(s: LogState) {
    && (s.lh != [] ==> |s.lh| < s.size)
    && (forall op | op in s.active :: |s.active[op]| <= MAXOPBLOCKS)
    && |s.lh| + Unused(s.active) <= LOGSIZE
  }

  /** The current transaction is exactly the union of its operations' writes. */
  ghost predicate Whole(s: LogState) {
    && NoDup(s.lh)
    && (forall b :: b in s.lh <==> b in All(s.active) || b in All(s.finished))
    && (forall i | 0 <= i < |s.history| :: s.history[i].blocks == All(s.history[i].ops))
  }

  /** Every operation is active, or finished, or in exactly one committed transaction. */
  ghost predicate Once(s: LogState) {
    && s.active.Keys !! s.finished.Keys
    && (forall i, op | 0 <= i < |s.history| && op in s.history[i].ops :: op !in s.active && op !in s.finished)
    && (forall i, j, op | 0 <= i < j < |s.history| && op in s.history[i].ops :: op !in s.history[j].ops)
  }

  ghost predicate Inv(s: LogState) {
    && s.outstanding == |s.active|
    && (s.committing ==> s.active == map[])
    && (s.active == map[] && s.finished != map[] ==> s.committing)
    && Reserved(s) && Whole(s) && Once(s)
  }

  lemma AllSplit(ops: Blocks, op: nat)
    requires op in ops
    ensures All(ops) == All(ops - {op}) + ops[op]
  {
    forall b ensures b in All(ops) <==> b in All(ops - {op}) + ops[op] {
      if b in All(ops) {
        var o :| o in ops && b in ops[o];
        assert o != op ==> o in ops - {op};
      }
      if b in All(ops - {op}) {
        var o :| o in ops - {op} && b in (ops - {op})[o];
        assert o in ops && b in ops[o];
      }
      assert b in ops[op] ==> b in All(ops);
    }
  }

  lemma AllUpdate(ops: Blocks, op: nat, bs: set<nat>)
    ensures All(ops[op := bs]) == All(ops - {op}) + bs
  {
    AllSplit(ops[op := bs], op);
    assert ops[op := bs] - {op} == ops - {op};
  }

  lemma StepKeepsReserved(s: LogState, step: Step)
    requires Inv(s) && Enabled(s, step)
    ensures Reserved(Next(s, step)) && Next(s, step).outstanding == |Next(s, step).active|
  {
    var t := Next(s, step);
    match step
    case Begin(op) =>
      UnusedBegin(s.active, op);
      UnusedLe(s.active);
    case LogWrite(op, b) =>
      UnusedWrite(s.active, op, b);
      assert b in s.active[op] ==> b in All(s.active);
    case End(op) =>
      UnusedSplit(s.active, op);
      assert t.active.Keys == s.active.Keys - {op};
    case CommitDone =>
      UnusedNonneg(s.active);
  }

  lemma {:induction false} UnusedLe(active: Blocks)
    ensures Unused(active) <= |active| * MAXOPBLOCKS
    decreases |active|
  {
    if active != map[] {
      var op :| op in active;
      UnusedSplit(active, op);
      UnusedLe(active - {op});
      assert (active - {op}).Keys == active.Keys - {op};
    }
  }

  lemma WriteKeepsWhole(s: LogState, op: nat, b: nat)
    requires Whole(s) && op in s.active
    ensures Whole(Next(s, LogWrite(op, b)))
  {
    AllUpdate(s.active, op, s.active[op] + {b});
    AllSplit(s.active, op);
    hide All;
    var t := Next(s, LogWrite(op, b));
    assert forall x :: x in t.lh <==> x in s.lh || x == b;
  }

  lemma EndKeepsWhole(s: LogState, op: nat)
    requires Whole(s) && op in s.active && op !in s.finished
    ensures Whole(Next(s, End(op)))
  {
    AllSplit(s.active, op);
    AllUpdate(s.finished, op, s.active[op]);
    assert s.finished - {op} == s.finished;
    hide All;
  }

  lemma CommitKeepsWhole(s: LogState)
    requires Whole(s) && s.active == map[]
    ensures Whole(Next(s, CommitDone))
  {
    var t := Next(s, CommitDone);
    assert All(s.active) == {} && All(t.finished) == {};
    hide All;
    assert (set b | b in s.lh) == All(s.finished);
  }

  lemma BeginKeepsWhole(s: LogState, op: nat)
    requires Inv(s) && Enabled(s, Begin(op))
    ensures Whole(Next(s, Begin(op)))
  {
    AllUpdate(s.active, op, {});
    assert s.active - {op} == s.active;
  }

  lemma StepKeepsWhole(s: LogState, step: Step)
    requires Inv(s) && Enabled(s, step)
    ensures Whole(Next(s, step))
  {
    hide Reserved, Whole, Next;
    match step
    case Begin(op) => BeginKeepsWhole(s, op);
    case LogWrite(op, b) => WriteKeepsWhole(s, op, b);
    case End(op) => EndKeepsWhole(s, op);
    case CommitDone => CommitKeepsWhole(s);
  }

  lemma StepKeeps(s: LogState, step: Step)
    requires Inv(s) && Enabled(s, step)
    ensures Inv(Next(s, step))
  {
    StepKeepsReserved(s, step);
    StepKeepsWhole(s, step);
  }

  /** The invariant holds after every run of any number of interleaved operations. */
  lemma {:induction false} RunKeeps(s: LogState, run: seq<Step>)
    requires Inv(s) && EnabledRun(s, run)
    ensures Inv(After(s, run))
    decreases |run|
  {
    if run != [] {
      StepKeeps(s, run[0]);
      RunKeeps(Next(s, run[0]), run[1..]);
    }
  }

  // ---------------------------------------------------------------------
  // What the invariant promises

  /** A commit runs alone: no operation is outstanding and none can start. */
  lemma CommitAlone(s: LogState, op: nat)
    requires Inv(s) && s.committing
    ensures s.outstanding == 0 && !Enabled(s, Begin(op))
    ensures !Enabled(s, End(op)) && forall b :: !Enabled(s, LogWrite(op, b))
  {
    assert op !in s.active;
  }

  /**
    With more log blocks than LOGSIZE, logging a new block within budget never hits
    the size test, in any reachable state.
   */
  lemma ReservationSuffices(s: LogState, op: nat, b: nat)
    requires Inv(s) && s.size > LOGSIZE && WithinBudget(s, op, b) && b !in s.lh
    ensures !TooBig(s) && Enabled(s, LogWrite(op, b))
  {
    assert b !in s.active[op] by { assert b in s.active[op] ==> b in All(s.active); }
    assert |s.active[op] + {b}| == |s.active[op]| + 1;
    UnusedSplit(s.active, op);
    UnusedNonneg(s.active - {op});
  }

  // ---------------------------------------------------------------------
  // Where the reservation does not suffice

  lemma {:induction false} RunAppend(s: LogState, xs: seq<Step>, ys: seq<Step>)
    requires EnabledRun(s, xs) && EnabledRun(After(s, xs), ys)
    ensures EnabledRun(s, xs + ys) && After(s, xs + ys) == After(After(s, xs), ys)
    decreases |xs|
  {
    if xs == [] {
      assert xs + ys == ys;
    } else {
      assert (xs + ys)[1..] == xs[1..] + ys;
      RunAppend(Next(s, xs[0]), xs[1..], ys);
    }
  }

  function Fill(b: nat, n: nat): seq<nat> {
    seq(n, i requires 0 <= i < n => b + i)
  }

  function FillSet(b: nat, n: nat): (r: set<nat>)
    ensures |r| == n && forall x: nat :: x in r <==> b <= x < b + n
  {
    if n == 0 then {} else FillSet(b, n - 1) + {b + n - 1}
  }

  /** An operation that has logged nothing yet logs n new blocks b, b + 1, and so on. */
  lemma {:induction false} Burst(s: LogState, op: nat, b: nat, n: nat) returns (run: seq<Step>)
    requires op in s.active && s.active[op] == {} && s.lh == Fill(0, b)
    requires n <= MAXOPBLOCKS && b + n <= LOGSIZE && b + n <= s.size - 1
    ensures EnabledRun(s, run)
    ensures After(s, run) == s.(lh := Fill(0, b + n), active := s.active[op := FillSet(b, n)])
  {
    hide Enabled, EnabledRun, After, Next, FillSet, Fill;
    if n == 0 {
      FillNone(b);
      RunNil(s, op);
      assert s.active[op := {}] == s.active;
      run := [];
      return;
    }
    run := Burst(s, op, b, n - 1);
    var t := After(s, run);
    var step := LogWrite(op, b + n - 1);
    BurstStep(t, op, b, n - 1);
    SingleStep(t, step);
    RunAppend(s, run, [step]);
    assert t.active[op := FillSet(b, n)] == s.active[op := FillSet(b, n)];
    run := run + [step];
  }

  lemma FillNone(b: nat)
    ensures FillSet(b, 0) == {} && Fill(0, 0) == []
  {
  }

  lemma FillNext(b: nat, k: nat)
    ensures FillSet(b, k) + {b + k} == FillSet(b, k + 1)
  {
  }

  lemma FillBudget(s: LogState, op: nat, b: nat, k: nat)
    requires op in s.active && s.active[op] == FillSet(b, k) && k < MAXOPBLOCKS
    ensures WithinBudget(s, op, b + k)
  {
    FillNext(b, k);
  }

  lemma BurstStep(t: LogState, op: nat, b: nat, k: nat)
    requires op in t.active && t.active[op] == FillSet(b, k) && t.lh == Fill(0, b + k)
    requires k < MAXOPBLOCKS && b + k < LOGSIZE && b + k < t.size - 1
    ensures Enabled(t, LogWrite(op, b + k))
    ensures Next(t, LogWrite(op, b + k)) == t.(lh := Fill(0, b + k + 1), active := t.active[op := FillSet(b, k + 1)])
  {
    hide FillSet, Fill;
    FillNext(b, k);
    FillLast(b + k);
  }

  lemma FillLast(n: nat)
    ensures Fill(0, n) + [n] == Fill(0, n + 1) && n !in Fill(0, n) && |Fill(0, n)| == n
  {
  }

  lemma SingleStep(t: LogState, step: Step)
    requires Enabled(t, step)
    ensures EnabledRun(t, [step]) && After(t, [step]) == Next(t, step)
  {
    assert [step][1..] == [];
  }

  /** Three operations have begun. */
  lemma ThreeBegun(size: nat) returns (run: seq<Step>, s: LogState)
    ensures EnabledRun(Init(size), run) && After(Init(size), run) == s
    ensures s == Init(size).(outstanding := 3, active := map[0 := {}, 1 := {}, 2 := {}])
  {
    run := [Begin(0), Begin(1), Begin(2)];
    var s1 := Next(Init(size), run[0]);
    var s2 := Next(s1, run[1]);
    s := Next(s2, run[2]);
    assert run[1..] == [Begin(1), Begin(2)] && run[1..][1..] == [Begin(2)] && run[1..][1..][1..] == [];
    assert s.active == map[0 := {}, 1 := {}, 2 := {}];
    assert EnabledRun(s2, [Begin(2)]) && After(s2, [Begin(2)]) == s;
    assert EnabledRun(s1, [Begin(1), Begin(2)]) && After(s1, [Begin(1), Begin(2)]) == s;
  }

  /** The first of them has logged n blocks. */
  lemma FirstFilled(size: nat, n: nat) returns (run: seq<Step>, s: LogState)
    requires n <= 10 && n <= size - 1
    ensures EnabledRun(Init(size), run) && After(Init(size), run) == s
    ensures s.lh == Fill(0, n) && s.size == size && s.active == map[0 := FillSet(0, n), 1 := {}, 2 := {}]
  {
    hide Enabled, EnabledRun, After, Next, FillSet, Fill;
    run, s := ThreeBegun(size);
    FillNone(0);
    var more := Burst(s, 0, 0, n);
    RunAppend(Init(size), run, more);
    run, s := run + more, After(s, more);
  }

  /** The first two have logged n blocks, the first one ten. */
  lemma SecondFilled(size: nat, n: nat) returns (run: seq<Step>, s: LogState)
    requires 10 <= n <= 20 && n <= size - 1
    ensures EnabledRun(Init(size), run) && After(Init(size), run) == s
    ensures s.lh == Fill(0, n) && s.size == size
    ensures s.active == map[0 := FillSet(0, 10), 1 := FillSet(10, n - 10), 2 := {}]
  {
    hide Enabled, EnabledRun, After, Next, FillSet, Fill;
    run, s := FirstFilled(size, 10);
    var more := Burst(s, 1, 10, n - 10);
    RunAppend(Init(size), run, more);
    run, s := run + more, After(s, more);
  }

  /** All three have logged n blocks, ten at most each. */
  lemma Filled(size: nat, n: nat) returns (run: seq<Step>, s: LogState)
    requires 20 <= n <= LOGSIZE && n <= size - 1
    ensures EnabledRun(Init(size), run) && After(Init(size), run) == s
    ensures s.lh == Fill(0, n) && 2 in s.active && s.active[2] == FillSet(20, n - 20) && s.size == size
  {
    hide Enabled, EnabledRun, After, Next, FillSet, Fill;
    run, s := SecondFilled(size, 20);
    var more := Burst(s, 2, 20, n - 20);
    RunAppend(Init(size), run, more);
    run, s := run + more, After(s, more);
  }

  /**
    On a disk with nlog = LOGSIZE, as mkfs builds it, an operation within its budget can
    hit "too big a transaction": the reservation counts one block more than the log holds.
   */
  lemma ReservationFails() returns (run: seq<Step>, op: nat, b: nat)
    ensures EnabledRun(Init(LOGSIZE), run)
    ensures var s := After(Init(LOGSIZE), run); WithinBudget(s, op, b) && b !in s.lh && TooBig(s)
  {
    hide EnabledRun, After, FillSet;
    var s;
    run, s := Filled(LOGSIZE, LOGSIZE - 1);
    op, b := 2, 29;
    FillNext(20, 9);
  }

  /**
    With a larger log a full transaction still refuses to log again a block that is
    already in it, because the size test comes before the search for the block.
   */
  lemma AbsorptionFails() returns (run: seq<Step>, op: nat, b: nat)
    ensures EnabledRun(Init(LOGSIZE + 1), run)
    ensures var s := After(Init(LOGSIZE + 1), run);
              WithinBudget(s, op, b) && b in s.active[op] && b in s.lh && TooBig(s)
  {
    hide EnabledRun, After, FillSet;
    var s;
    run, s := Filled(LOGSIZE + 1, LOGSIZE);
    op, b := 2, 29;
    assert s.lh[29] == 29;
    assert s.active[op] + {b} == s.active[op];
  }

  /**
    Exactly when a within-budget log_write goes through in a reachable state: the log is
    not full, where full means LOGSIZE blocks or all the blocks after the header.
   */
  lemma WriteGoesThrough(s: LogState, op: nat, b: nat)
    requires Inv(s) && WithinBudget(s, op, b)
    ensures Enabled(s, LogWrite(op, b)) <==> |s.lh| < LOGSIZE && |s.lh| < s.size - 1
    ensures s.size > LOGSIZE ==> (Enabled(s, LogWrite(op, b)) <==> b !in s.lh || |s.lh| < LOGSIZE)
  {
    if s.size > LOGSIZE && b !in s.lh {
      ReservationSuffices(s, op, b);
    }
  }

  /** After this run, logging the new block b within op's budget is not refused. */
  ghost predicate Passes(size: nat, run: seq<Step>, op: nat, b: nat) {
    EnabledRun(Init(size), run) && WithinBudget(After(Init(size), run), op, b) && b !in After(Init(size), run).lh
    ==> Enabled(After(Init(size), run), LogWrite(op, b))
  }

  /** n blocks are logged, and one of three operations may still log block n. */
  lemma PartlyFilled(size: nat, n: nat) returns (run: seq<Step>, op: nat)
    requires n < LOGSIZE && (n == 0 || n <= size - 1)
    ensures EnabledRun(Init(size), run)
    ensures var s := After(Init(size), run); s.lh == Fill(0, n) && s.size == size && WithinBudget(s, op, n)
  {
    hide Enabled, EnabledRun, After, Next, FillSet, Fill, WithinBudget, Init;
    var s;
    if n == 0 {
      run, s := ThreeBegun(size);
      NothingLogged(size);
      FillNone(0);
    } else if n < 10 {
      run, s := FirstFilled(size, n);
    } else if n < 20 {
      run, s := SecondFilled(size, n);
    } else {
      run, s := Filled(size, n);
    }
    op := n / 10;
    FillBudget(s, op, op * 10, n - op * 10);
  }

  lemma NothingLogged(size: nat)
    ensures Init(size).lh == [] && Init(size).size == size
  {
  }

  /**
    The reservation promise, by log size: every new block within budget is logged in every
    run exactly when the disk's log has more than LOGSIZE blocks.
   */
  lemma ReservationExactly(size: nat)
    ensures (forall run, op, b :: Passes(size, run, op, b)) <==> size > LOGSIZE
  {
    if size > LOGSIZE {
      forall run, op, b ensures Passes(size, run, op, b) {
        if EnabledRun(Init(size), run) {
          InitInv(size);
          RunKeeps(Init(size), run);
          SizeStays(Init(size), run);
          var s := After(Init(size), run);
          if WithinBudget(s, op, b) && b !in s.lh {
            ReservationSuffices(s, op, b);
          }
        }
      }
    } else {
      var n := if size == 0 then 0 else size - 1;
      var run, op := PartlyFilled(size, n);
      FillLast(n);
      assert !Passes(size, run, op, n);
    }
  }

  lemma InitInv(size: nat)
    ensures Inv(Init(size))
  {
  }

  lemma {:induction false} SizeStays(s: LogState, run: seq<Step>)
    requires EnabledRun(s, run)
    ensures After(s, run).size == s.size
    decreases |run|
  {
    if run != [] {
      SizeStays(Next(s, run[0]), run[1..]);
    }
  }

  // ---------------------------------------------------------------------
  // Whole operations in single transactions

  /** The blocks operation op logs in a run. */
  ghost function LoggedBy(run: seq<Step>, op: nat): set<nat> {
    set i | 0 <= i < |run| && run[i].LogWrite? && run[i].op == op :: run[i].b
  }

  /** The blocks the state remembers for op, wherever op is now. */
  ghost predicate Remembers(s: LogState, op: nat, bs: set<nat>) {
    && (op in s.active ==> s.active[op] == bs)
    && (op in s.finished ==> s.finished[op] == bs)
    && (forall i | 0 <= i < |s.history| && op in s.history[i].ops :: s.history[i].ops[op] == bs)
    && (Fresh(s, op) ==> bs == {})
  }

  lemma StepRemembers(s: LogState, step: Step, op: nat, bs: set<nat>)
    requires Inv(s) && Enabled(s, step) && Remembers(s, op, bs)
    ensures Remembers(Next(s, step), op, if step.LogWrite? && step.op == op then bs + {step.b} else bs)
  {
    hide Reserved, Whole;
    var t := Next(s, step);
    assert forall i | 0 <= i < |s.history| :: t.history[i] == s.history[i];
    if step.CommitDone? && op in s.finished {
      assert op in t.history[|s.history|].ops;
    }
  }

  lemma {:induction false} RunRemembers(s: LogState, run: seq<Step>, op: nat, bs: set<nat>)
    requires Inv(s) && EnabledRun(s, run) && Remembers(s, op, bs)
    ensures Remembers(After(s, run), op, bs + LoggedBy(run, op))
    decreases |run|
  {
    hide Inv, Remembers, Enabled, Next, LoggedBy, EnabledRun, After;
    if run == [] {
      RunNil(s, op);
      assert bs + LoggedBy(run, op) == bs;
    } else {
      RunCons(s, run);
      var step := run[0];
      StepKeeps(s, step);
      StepRemembers(s, step, op, bs);
      var bs' := if step.LogWrite? && step.op == op then bs + {step.b} else bs;
      RunRemembers(Next(s, step), run[1..], op, bs');
      LoggedCons(run, op);
      assert bs' + LoggedBy(run[1..], op) == bs + LoggedBy(run, op);
    }
  }

  lemma LoggedCons(run: seq<Step>, op: nat)
    requires run != []
    ensures LoggedBy(run, op) == LoggedBy(run[1..], op) + if run[0].LogWrite? && run[0].op == op then {run[0].b} else {}
  {
    var rest := run[1..];
    forall b ensures b in LoggedBy(run, op) <==>
        b in LoggedBy(rest, op) || (run[0].LogWrite? && run[0].op == op && b == run[0].b) {
      if b in LoggedBy(run, op) {
        var i :| 0 <= i < |run| && run[i].LogWrite? && run[i].op == op && run[i].b == b;
        assert i > 0 ==> rest[i - 1] == run[i];
      }
      if b in LoggedBy(rest, op) {
        var i :| 0 <= i < |rest| && rest[i].LogWrite? && rest[i].op == op && rest[i].b == b;
        assert run[i + 1] == rest[i];
      }
    }
  }

  /**
    In every run from an empty log, a committed transaction is a union of whole operations:
    it contains everything each of its operations ever logged, nothing else, and no
    operation takes part in two transactions.
   */
  lemma WholeOperations(size: nat, run: seq<Step>, i: nat, op: nat)
    requires EnabledRun(Init(size), run) && i < |After(Init(size), run).history|
    requires op in After(Init(size), run).history[i].ops
    ensures var h := After(Init(size), run).history;
            && h[i].ops[op] == LoggedBy(run, op)
            && LoggedBy(run, op) <= h[i].blocks && h[i].blocks == All(h[i].ops)
            && (forall j: nat | j < |h| && j != i :: op !in h[j].ops)
  {
    var s := Init(size);
    assert All(s.active) == {} && All(s.finished) == {};
    RunKeeps(s, run);
    RunRemembers(s, run, op, {});
    var h := After(s, run).history;
    assert {} + LoggedBy(run, op) == LoggedBy(run, op);
    assert Once(After(s, run));
    forall b | b in h[i].ops[op] ensures b in All(h[i].ops) {
    }
  }

  // ---------------------------------------------------------------------
  // No operation is forgotten

  /** Operation op has ended, and waits for its commit or has been committed. */
  ghost predicate Kept(s: LogState, op: nat) {
    op in s.finished || exists i: nat :: InGroup(s, i, op)
  }

  ghost predicate InGroup(s: LogState, i: nat, op: nat) {
    i < |s.history| && op in s.history[i].ops
  }

  lemma StepKept(s: LogState, step: Step, op: nat)
    requires Enabled(s, step) && (Kept(s, op) || step == End(op))
    ensures Kept(Next(s, step), op)
  {
    var t := Next(s, step);
    if i: nat :| InGroup(s, i, op) {
      assert InGroup(t, i, op);
    } else if step.CommitDone? {
      assert InGroup(t, |s.history|, op);
    }
  }

  lemma {:induction false} RunKept(s: LogState, run: seq<Step>, op: nat)
    requires EnabledRun(s, run) && (Kept(s, op) || End(op) in run)
    ensures Kept(After(s, run), op)
    decreases |run|
  {
    hide Kept, Enabled, Next;
    if run != [] {
      RunCons(s, run);
      if Kept(s, op) || run[0] == End(op) {
        StepKept(s, run[0], op);
      } else {
        assert End(op) in run[1..];
      }
      RunKept(Next(s, run[0]), run[1..], op);
    }
  }

  /**
    In every run from an empty log: as long as a finished operation is not committed, other
    operations are active or a commit is due.  Once there is neither, every operation that has
    ended is in a committed transaction with all it logged, and the log is empty.
   */
  lemma NothingForgotten(size: nat, run: seq<Step>)
    requires EnabledRun(Init(size), run)
    ensures var s := After(Init(size), run);
            && (s.active == map[] && s.finished != map[] ==> s.committing)
            && (s.active == map[] && !s.committing ==>
                  && s.lh == []
                  && forall op | End(op) in run :: exists i: nat ::
                        InGroup(s, i, op) && s.history[i].ops[op] == LoggedBy(run, op))
  {
    hide Kept, EnabledRun, After, LoggedBy;
    InitInv(size);
    RunKeeps(Init(size), run);
    var s := After(Init(size), run);
    if s.active == map[] && !s.committing {
      assert All(s.active) == {} && All(s.finished) == {};
      if s.lh != [] {
        SomeListed(s.lh);
        assert false;
      }
      forall op | End(op) in run
        ensures exists i: nat :: InGroup(s, i, op) && s.history[i].ops[op] == LoggedBy(run, op)
      {
        RunKept(Init(size), run, op);
        KeptGroup(s, op);
        var i: nat :| InGroup(s, i, op);
        WholeOperations(size, run, i, op);
      }
    }
  }

  lemma SomeListed(lh: seq<nat>)
    requires lh != []
    ensures exists b :: b in lh
  {
    assert lh[0] in lh;
  }

  lemma KeptGroup(s: LogState, op: nat)
    requires Kept(s, op) && op !in s.finished
    ensures exists i: nat :: InGroup(s, i, op)
  {
  }
}
