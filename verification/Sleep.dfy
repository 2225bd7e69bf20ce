/**
  sleep, wakeup and kill (kernel/proc.c) under arbitrary interleaving, with acquiresleep and
  releasesleep (kernel/sleeplock.c) as the code that uses them.

  Processes are 0 .. n-1.  A channel l stands for a condition that is read and changed under
  its spinlock lk; for a sleeplock the condition is "not locked".  Every step below is one
  statement of one process or of the scheduler; acquire waits until the lock is free.
 */
module Sleep {
  import opened Prelude

  datatype RunState = Running | Runnable | Sleeping

  /** Where a process is. */
  datatype Pc =
    | Idle
    | WaitEntry(l: nat)                  // before acquire(lk)
    | WaitTest(l: nat)                   // while (locked)
    | WaitTake(l: nat)                   // locked = 1
    | WaitDone(l: nat)                   // before release(lk)
    | SleepEntry(l: nat)                 // sleep: before acquire(&p->lock)
    | SleepLocked(l: nat)                // before release(lk)
    | SleepChan(l: nat)                  // before p->chan = chan
    | SleepState(l: nat)                 // before p->state = SLEEPING
    | SleepSched(l: nat)                 // in sched, p->lock passed to the scheduler
    | SleepOff(l: nat)                   // not running, p->lock free
    | SleepBack(l: nat)                  // running again with p->lock, before p->chan = 0
    | SleepTidy(l: nat)                  // before release(&p->lock)
    | SleepRetake(l: nat)                // before acquire(lk)
    | SignalEntry(l: nat)                // before acquire(lk)
    | SignalChange(l: nat)               // locked = 0
    | WakeScan(l: nat, k: nat)           // wakeup: before looking at process k
    | WakeLook(l: nat, k: nat)           // holds process k's lock
    | SignalDone(l: nat)                 // before release(lk)

  datatype State = State(
    pc: seq<Pc>,
    run: seq<RunState>,
    chan: seq<Option<nat>>,
    plock: seq<Option<nat>>,   // holder of each p->lock
    lk: seq<Option<nat>>,      // holder of each channel's spinlock
    ready: seq<bool>,          // the condition of each channel
    owner: seq<Option<nat>>)   // lk->pid

  datatype Step =
    | Enter(p: nat, l: nat)
    | BeginSignal(p: nat, l: nat)
    | Advance(p: nat, keep: bool)   // the next statement of p; keep is what a taker leaves the condition at
    | Dispatch(p: nat)              // the scheduler picks p
    | Preempt(p: nat)               // yield
    | Kill(p: nat)

  ghost predicate Shape(s: State) {
    && |s.run| == |s.pc| && |s.chan| == |s.pc| && |s.plock| == |s.pc|
    && |s.ready| == |s.lk| && |s.owner| == |s.lk|
  }

  /** The channel spinlock a process holds at pc, and the process lock. */
  function LkOf(pc: Pc): Option<nat> {
    match pc
    case WaitTest(l) => Some(l)
    case WaitTake(l) => Some(l)
    case WaitDone(l) => Some(l)
    case SleepEntry(l) => Some(l)
    case SleepLocked(l) => Some(l)
    case SignalChange(l) => Some(l)
    case WakeScan(l, _) => Some(l)
    case WakeLook(l, _) => Some(l)
    case SignalDone(l) => Some(l)
    case _ => None
  }

  function PlockOf(pc: Pc, p: nat): Option<nat> {
    match pc
    case SleepLocked(_) => Some(p)
    case SleepChan(_) => Some(p)
    case SleepState(_) => Some(p)
    case SleepSched(_) => Some(p)
    case SleepBack(_) => Some(p)
    case SleepTidy(_) => Some(p)
    case WakeLook(_, k) => Some(k)
    case _ => None
  }

  function Goto(s: State, p: nat, pc: Pc): State
    requires p < |s.pc|
  {
    s.(pc := s.pc[p := pc])
  }

  /** The waiting acquire: the lock this process is about to take is free. */
  ghost predicate CanAdvance(s: State, p: nat)
    requires Shape(s)
  {
    && p < |s.pc|
    && (match s.pc[p]
        case WaitEntry(l) => s.run[p] == Running && l < |s.lk| && s.lk[l] == None
        case SleepRetake(l) => s.run[p] == Running && l < |s.lk| && s.lk[l] == None
        case SignalEntry(l) => s.run[p] == Running && l < |s.lk| && s.lk[l] == None
        case SleepEntry(l) => s.run[p] == Running && s.plock[p] == None
        case WakeScan(l, k) => s.run[p] == Running && (k < |s.pc| && k != p ==> s.plock[k] == None)
        case Idle => false
        case SleepOff(_) => false
        case SleepSched(_) => true
        case _ => s.run[p] == Running)
  }

  ghost predicate Enabled(s: State, step: Step) {
    && Shape(s)
    && match step
       case Enter(p, l) => p < |s.pc| && l < |s.lk| && s.pc[p] == Idle && s.run[p] == Running
       case BeginSignal(p, l) => p < |s.pc| && l < |s.lk| && s.pc[p] == Idle && s.run[p] == Running
       case Advance(p, _) => CanAdvance(s, p) && (LkOf(s.pc[p]).Some? ==> LkOf(s.pc[p]).value < |s.lk|)
       case Dispatch(p) => p < |s.pc| && s.run[p] == Runnable && s.plock[p] == None
       case Preempt(p) => p < |s.pc| && s.run[p] == Running && LkOf(s.pc[p]) == None && PlockOf(s.pc[p], p) == None
         && s.plock[p] == None
       case Kill(p) => p < |s.pc| && s.plock[p] == None
  }

  /** The next statement of process p. */
  function Statement(s: State, p: nat, keep: bool): State
    requires Shape(s) && CanAdvance(s, p) && (LkOf(s.pc[p]).Some? ==> LkOf(s.pc[p]).value < |s.lk|)
  {
    match s.pc[p]
    case WaitEntry(l) => Goto(s, p, WaitTest(l)).(lk := s.lk[l := Some(p)])
    case WaitTest(l) => Goto(s, p, if s.ready[l] then WaitTake(l) else SleepEntry(l))
    case WaitTake(l) => Goto(s, p, WaitDone(l)).(ready := s.ready[l := keep], owner := s.owner[l := Some(p)])
    case WaitDone(l) => Goto(s, p, Idle).(lk := s.lk[l := None])
    case SleepEntry(l) => Goto(s, p, SleepLocked(l)).(plock := s.plock[p := Some(p)])
    case SleepLocked(l) => Goto(s, p, SleepChan(l)).(lk := s.lk[l := None])
    case SleepChan(l) => Goto(s, p, SleepState(l)).(chan := s.chan[p := Some(l)])
    case SleepState(l) => Goto(s, p, SleepSched(l)).(run := s.run[p := Sleeping])
    case SleepSched(l) => Goto(s, p, SleepOff(l)).(plock := s.plock[p := None])
    case SleepBack(l) => Goto(s, p, SleepTidy(l)).(chan := s.chan[p := None])
    case SleepTidy(l) => Goto(s, p, SleepRetake(l)).(plock := s.plock[p := None])
    case SleepRetake(l) => Goto(s, p, WaitTest(l)).(lk := s.lk[l := Some(p)])
    case SignalEntry(l) => Goto(s, p, SignalChange(l)).(lk := s.lk[l := Some(p)])
    case SignalChange(l) => Goto(s, p, WakeScan(l, 0)).(ready := s.ready[l := true], owner := s.owner[l := None])
    case WakeScan(l, k) =>
      if k >= |s.pc| then Goto(s, p, SignalDone(l))
      else if k == p then Goto(s, p, WakeScan(l, k + 1))
      else Goto(s, p, WakeLook(l, k)).(plock := s.plock[k := Some(p)])
    case WakeLook(l, k) =>
      var s' := Goto(s, p, WakeScan(l, k + 1));
      if k >= |s.pc| then s'
      else
        var s'' := s'.(plock := s.plock[k := None]);
        if s.run[k] == Sleeping && s.chan[k] == Some(l) then s''.(run := s.run[k := Runnable]) else s''
    case SignalDone(l) => Goto(s, p, Idle).(lk := s.lk[l := None])
    case Idle => s
    case SleepOff(_) => s
  }

  function Next(s: State, step: Step): State
    requires Enabled(s, step)
  {
    match step
    case Enter(p, l) => Goto(s, p, WaitEntry(l))
    case BeginSignal(p, l) => Goto(s, p, SignalEntry(l))
    case Advance(p, keep) => Statement(s, p, keep)
    case Dispatch(p) =>
      var s' := s.(run := s.run[p := Running]);
      (match s.pc[p]
       case SleepOff(l) => Goto(s', p, SleepBack(l)).(plock := s.plock[p := Some(p)])
       case _ => s')
    case Preempt(p) => s.(run := s.run[p := Runnable])
    case Kill(p) => if s.run[p] == Sleeping then s.(run := s.run[p := Runnable]) else s
  }

  // ---------------------------------------------------------------------
  // The invariant

  /** locks says who holds each lock, held what each process holds: the two agree. */
  ghost predicate Consistent(locks: seq<Option<nat>>, held: seq<Option<nat>>) {
    && (forall l: nat | l < |locks| && locks[l].Some? :: locks[l].value < |held| && held[locks[l].value] == Some(l))
    && (forall p: nat | p < |held| && held[p].Some? :: held[p].value < |locks| && locks[held[p].value] == Some(p))
  }

  ghost function LksOf(pc: seq<Pc>): (h: seq<Option<nat>>)
    ensures |h| == |pc| && forall p: nat | p < |pc| :: h[p] == LkOf(pc[p])
  {
    seq(|pc|, p requires 0 <= p < |pc| => LkOf(pc[p]))
  }

  ghost function PlocksOf(pc: seq<Pc>): (h: seq<Option<nat>>)
    ensures |h| == |pc| && forall p: nat | p < |pc| :: h[p] == PlockOf(pc[p], p)
  {
    seq(|pc|, p requires 0 <= p < |pc| => PlockOf(pc[p], p))
  }

  /** Each lock is held by exactly the process whose program point says so. */
  ghost predicate LocksOk(s: State) {
    Consistent(s.lk, LksOf(s.pc)) && Consistent(s.plock, PlocksOf(s.pc))
  }

  /** What p->state and p->chan are at pc. */
  predicate StateOk(pc: Pc, p: nat, run: RunState, chan: Option<nat>, n: nat, channels: nat) {
    match pc
    case Idle => chan == None && run != Sleeping
    case WaitEntry(l) => chan == None && run != Sleeping && l < channels
    case SleepRetake(l) => chan == None && run != Sleeping && l < channels
    case SignalEntry(l) => chan == None && run != Sleeping && l < channels
    case SleepState(l) => chan == Some(l) && run == Running && l < channels
    case SleepSched(l) => chan == Some(l) && run == Sleeping && l < channels
    case SleepOff(l) => chan == Some(l) && run != Running && l < channels
    case SleepBack(l) => chan == Some(l) && run == Running && l < channels
    case WakeScan(l, k) => chan == None && run == Running && l < channels && k <= n
    case WakeLook(l, k) => chan == None && run == Running && l < channels && k < n && k != p
    case other => chan == None && run == Running && other.l < channels
  }

  /** Whether the condition is known at pc, and what it is. */
  function Knows(pc: Pc): (r: Option<bool>)
    ensures r.Some? ==> !pc.Idle? && LkOf(pc) == Some(pc.l)
  {
    match pc
    case WaitTake(_) => Some(true)
    case SleepEntry(_) => Some(false)
    case SleepLocked(_) => Some(false)
    case WakeScan(_, _) => Some(true)
    case WakeLook(_, _) => Some(true)
    case SignalDone(_) => Some(true)
    case _ => None
  }

  ghost predicate LocalOk(s: State, p: nat)
    requires Shape(s) && p < |s.pc|
  {
    && StateOk(s.pc[p], p, s.run[p], s.chan[p], |s.pc|, |s.lk|)
    && (Knows(s.pc[p]).Some? ==> s.pc[p].l < |s.lk| && s.ready[s.pc[p].l] == Knows(s.pc[p]).value)
  }

  /** The process gave up its channel's spinlock to sleep, and nobody has woken it since. */
  predicate GivenUp(pc: Pc, run: RunState) {
    pc.SleepChan? || pc.SleepState? || pc.SleepSched? || (pc.SleepOff? && run == Sleeping)
  }

  predicate Committed(s: State, p: nat, l: nat)
    requires Shape(s) && p < |s.pc|
  {
    GivenUp(s.pc[p], s.run[p]) && s.pc[p].l == l
  }

  /** Somebody is in wakeup for channel l and has not passed process p yet. */
  predicate Coming(s: State, p: nat, l: nat)
    requires Shape(s) && l < |s.lk|
  {
    && s.lk[l].Some? && s.lk[l].value < |s.pc|
    && match s.pc[s.lk[l].value]
       case WakeScan(_, k) => k <= p
       case WakeLook(_, k) => k <= p
       case _ => false
  }

  ghost predicate WakeupsOk(s: State)
    requires Shape(s)
  {
    forall p: nat, l: nat | p < |s.pc| && l < |s.lk| && Committed(s, p, l) :: !s.ready[l] || Coming(s, p, l)
  }

  ghost predicate Inv(s: State) {
    && Shape(s) && LocksOk(s) && WakeupsOk(s)
    && (forall p: nat | p < |s.pc| :: LocalOk(s, p))
  }

  ghost predicate Init(s: State) {
    && Shape(s) && (forall p: nat | p < |s.pc| ::
          s.pc[p] == Idle && s.run[p] == Runnable && s.chan[p] == None && s.plock[p] == None)
    && (forall l: nat | l < |s.lk| :: s.lk[l] == None && s.ready[l] && s.owner[l] == None)
  }

  lemma InitInv(s: State)
    requires Init(s)
    ensures Inv(s)
  {
  }

  /** Who holds each lock after p went from holding `before` to holding `after`. */
  function Swap(locks: seq<Option<nat>>, p: nat, before: Option<nat>, after: Option<nat>): seq<Option<nat>> {
    if before == after then locks
    else
      var freed := if before.Some? && before.value < |locks| then locks[before.value := None] else locks;
      if after.Some? && after.value < |freed| then freed[after.value := Some(p)] else freed
  }

  /** A lock is taken only when it is free. */
  ghost predicate Takes(locks: seq<Option<nat>>, before: Option<nat>, after: Option<nat>) {
    before == after || after == None || (before == None && after.value < |locks| && locks[after.value] == None)
  }

  /** What a waker's next statement does. */
  ghost predicate Scans(s: State, s': State, p: nat)
    requires Shape(s) && Shape(s') && p < |s.pc| == |s'.pc|
  {
    match s.pc[p]
    case WakeScan(l, k) => s'.pc[p] == if k >= |s.pc| then SignalDone(l) else if k == p then WakeScan(l, k + 1)
      else WakeLook(l, k)
    case WakeLook(l, k) => s'.pc[p] == WakeScan(l, k + 1)
      && (k < |s.pc| && s.run[k] == Sleeping && s.chan[k] == Some(l) ==> s'.run[k] == Runnable)
    case _ => true
  }

  /** What other processes can see of a step of process p. */
  ghost predicate Did(s: State, s': State, p: nat) {
    && Shape(s) && Shape(s') && p < |s.pc| == |s'.pc| && |s'.lk| == |s.lk|
    && s'.pc == s.pc[p := s'.pc[p]]
    && s'.lk == Swap(s.lk, p, LkOf(s.pc[p]), LkOf(s'.pc[p])) && Takes(s.lk, LkOf(s.pc[p]), LkOf(s'.pc[p]))
    && s'.plock == Swap(s.plock, p, PlockOf(s.pc[p], p), PlockOf(s'.pc[p], p))
      && Takes(s.plock, PlockOf(s.pc[p], p), PlockOf(s'.pc[p], p))
    && (forall l: nat | l < |s.lk| && s'.ready[l] != s.ready[l] ::
          LkOf(s.pc[p]) == Some(l) && LkOf(s'.pc[p]) == Some(l))
    && (forall l: nat | l < |s.lk| && s'.ready[l] && !s.ready[l] :: s'.pc[p] == WakeScan(l, 0))
    && (forall q: nat | q < |s.pc| && q != p :: s'.chan[q] == s.chan[q])
    && (forall q: nat | q < |s.pc| && q != p && s'.run[q] != s.run[q] ::
          PlockOf(s.pc[p], p) == Some(q) && s.run[q] == Sleeping && s'.run[q] == Runnable)
    && Scans(s, s', p)
    && (GivenUp(s'.pc[p], s'.run[p]) ==>
          || s.pc[p] == SleepLocked(s'.pc[p].l)
          || (GivenUp(s.pc[p], s.run[p]) && s.pc[p].l == s'.pc[p].l))
  }

  lemma WaitDid(s: State, p: nat, keep: bool)
    requires Enabled(s, Advance(p, keep)) && LocalOk(s, p)
    requires (s.pc[p].WaitEntry? || s.pc[p].WaitTest? || s.pc[p].WaitTake? || s.pc[p].WaitDone?)
    ensures Did(s, Statement(s, p, keep), p) && LocalOk(Statement(s, p, keep), p)
  {
  }

  lemma SleepDid(s: State, p: nat, keep: bool)
    requires Enabled(s, Advance(p, keep)) && LocalOk(s, p)
    requires s.pc[p].SleepEntry? || s.pc[p].SleepLocked? || s.pc[p].SleepChan? || s.pc[p].SleepState?
               || s.pc[p].SleepSched?
    ensures Did(s, Statement(s, p, keep), p) && LocalOk(Statement(s, p, keep), p)
  {
  }

  lemma BackDid(s: State, p: nat, keep: bool)
    requires Enabled(s, Advance(p, keep)) && LocalOk(s, p)
    requires s.pc[p].SleepBack? || s.pc[p].SleepTidy? || s.pc[p].SleepRetake?
    ensures Did(s, Statement(s, p, keep), p) && LocalOk(Statement(s, p, keep), p)
  {
  }

  lemma SignalDid(s: State, p: nat, keep: bool)
    requires Enabled(s, Advance(p, keep)) && LocalOk(s, p)
    requires (s.pc[p].SignalEntry? || s.pc[p].SignalChange? || s.pc[p].SignalDone?)
    ensures Did(s, Statement(s, p, keep), p) && LocalOk(Statement(s, p, keep), p)
  {
  }

  lemma ScanDid(s: State, p: nat, keep: bool)
    requires Enabled(s, Advance(p, keep)) && LocalOk(s, p) && s.pc[p].WakeScan?
    ensures Did(s, Statement(s, p, keep), p) && LocalOk(Statement(s, p, keep), p)
  {
  }

  lemma LookDid(s: State, p: nat, keep: bool)
    requires Enabled(s, Advance(p, keep)) && LocalOk(s, p) && s.pc[p].WakeLook?
    ensures Did(s, Statement(s, p, keep), p) && LocalOk(Statement(s, p, keep), p)
  {
  }

  lemma BeginDid(s: State, step: Step)
    requires Enabled(s, step) && (step.Enter? || step.BeginSignal?) && LocalOk(s, step.p)
    ensures Did(s, Next(s, step), step.p) && LocalOk(Next(s, step), step.p)
  {
    hide Statement;
  }

  lemma DispatchDid(s: State, step: Step)
    requires Enabled(s, step) && step.Dispatch? && LocalOk(s, step.p)
    ensures Did(s, Next(s, step), step.p) && LocalOk(Next(s, step), step.p)
  {
    hide Statement;
  }

  /** Every step but preemption and kill is a step of one process. */
  lemma StepDid(s: State, step: Step)
    requires Enabled(s, step) && !step.Preempt? && !step.Kill? && LocalOk(s, step.p)
    ensures Did(s, Next(s, step), step.p) && LocalOk(Next(s, step), step.p)
  {
    hide Statement, Did, LocalOk;
    match step
    case Advance(p, keep) =>
      match s.pc[p] {
        case WaitEntry(_) => WaitDid(s, p, keep);
        case WaitTest(_) => WaitDid(s, p, keep);
        case WaitTake(_) => WaitDid(s, p, keep);
        case WaitDone(_) => WaitDid(s, p, keep);
        case SignalEntry(_) => SignalDid(s, p, keep);
        case SignalChange(_) => SignalDid(s, p, keep);
        case SignalDone(_) => SignalDid(s, p, keep);
        case WakeScan(_, _) => ScanDid(s, p, keep);
        case WakeLook(_, _) => LookDid(s, p, keep);
        case SleepBack(_) => BackDid(s, p, keep);
        case SleepTidy(_) => BackDid(s, p, keep);
        case SleepRetake(_) => BackDid(s, p, keep);
        case _ => SleepDid(s, p, keep);
      }
    case Dispatch(_) => DispatchDid(s, step);
    case _ => BeginDid(s, step);
  }

  lemma SwapConsistent(locks: seq<Option<nat>>, held: seq<Option<nat>>, p: nat, after: Option<nat>)
    requires Consistent(locks, held) && p < |held| && Takes(locks, held[p], after)
    ensures Consistent(Swap(locks, p, held[p], after), held[p := after])
    ensures forall l: nat | l < |locks| && locks[l].Some?
              && locks[l].value != p :: Swap(locks, p, held[p], after)[l] == locks[l]
  {
  }

  lemma DidLocks(s: State, s': State, p: nat)
    requires LocksOk(s) && Did(s, s', p)
    ensures LocksOk(s')
    ensures forall l: nat | l < |s.lk| && s.lk[l].Some? && s.lk[l].value != p :: s'.lk[l] == s.lk[l]
  {
    hide Scans, LkOf, PlockOf, GivenUp, Swap, Takes, Consistent;
    SwapConsistent(s.lk, LksOf(s.pc), p, LkOf(s'.pc[p]));
    SwapConsistent(s.plock, PlocksOf(s.pc), p, PlockOf(s'.pc[p], p));
    assert LksOf(s'.pc) == LksOf(s.pc)[p := LkOf(s'.pc[p])];
    assert PlocksOf(s'.pc) == PlocksOf(s.pc)[p := PlockOf(s'.pc[p], p)];
  }

  /** A sleeping process whose lock it does not hold itself is off the CPU. */
  lemma OffCpu(s: State, q: nat)
    requires Shape(s) && LocksOk(s) && q < |s.pc| && LocalOk(s, q) && s.run[q] == Sleeping && s.plock[q] != Some(q)
    ensures s.pc[q].SleepOff?
  {
    assert PlocksOf(s.pc)[q] == PlockOf(s.pc[q], q);
  }

  /** What process q relies on does not change under it. */
  lemma DidLocal(s: State, s': State, p: nat, q: nat)
    requires Shape(s) && LocksOk(s) && q < |s.pc| && LocalOk(s, q) && Did(s, s', p) && q != p
    ensures LocalOk(s', q)
  {
    hide Scans, LkOf, PlockOf, StateOk, Knows, GivenUp, Swap, Takes;
    assert LksOf(s.pc)[q] == LkOf(s.pc[q]) && LksOf(s.pc)[p] == LkOf(s.pc[p])
      && PlocksOf(s.pc)[p] == PlockOf(s.pc[p], p);
    if s'.run[q] != s.run[q] {
      OffCpu(s, q);
      OffState(s.pc[q], q, s.run[q], s'.run[q], s.chan[q], |s.pc|, |s.lk|);
    }
  }

  lemma OffState(pc: Pc, q: nat, run: RunState, run': RunState, chan: Option<nat>, n: nat, channels: nat)
    requires pc.SleepOff? && StateOk(pc, q, run, chan, n, channels) && run' != Running
    ensures StateOk(pc, q, run', chan, n, channels)
  {
  }

  /** The waker of channel l either has not passed q yet or has woken it. */
  lemma WakerPasses(s: State, s': State, p: nat, q: nat, l: nat)
    requires Shape(s) && LocksOk(s) && Did(s, s', p) && q < |s.pc| && l < |s.lk| && LocalOk(s, q)
    requires s.lk[l] == Some(p) && Coming(s, q, l) && Committed(s, q, l) && Committed(s', q, l)
    ensures Coming(s', q, l)
  {
    hide StateOk;
    assert LksOf(s.pc)[p] == LkOf(s.pc[p]) && PlocksOf(s.pc)[p] == PlockOf(s.pc[p], p)
      && PlocksOf(s.pc)[q] == PlockOf(s.pc[q], q);
    if s.pc[p].WakeLook? && s.pc[p].k == q {
      OffChan(s.pc[q], q, s.run[q], s.chan[q], |s.pc|, |s.lk|);
    }
  }

  lemma OffChan(pc: Pc, q: nat, run: RunState, chan: Option<nat>, n: nat, channels: nat)
    requires StateOk(pc, q, run, chan, n, channels)
    ensures pc.SleepOff? ==> chan == Some(pc.l)
  {
  }

  /** No step of a waker, of another process or of the sleeper itself loses a wakeup. */
  lemma DidWakeup(s: State, s': State, p: nat, q: nat, l: nat)
    requires Inv(s) && Did(s, s', p) && q < |s.pc| && l < |s.lk| && Committed(s', q, l)
    ensures !s'.ready[l] || Coming(s', q, l)
  {
    hide Scans, LkOf, PlockOf, StateOk, Swap, Takes, GivenUp;
    assert LocalOk(s, q);
    DidLocks(s, s', p);
    CommittedBefore(s, s', p, q, l);
    assert LksOf(s.pc)[p] == LkOf(s.pc[p]) && LksOf(s'.pc)[p] == LkOf(s'.pc[p]);
    if s.ready[l] {
      assert Committed(s, q, l) && Coming(s, q, l);
      if s.lk[l] == Some(p) {
        WakerPasses(s, s', p, q, l);
      }
    }
  }

  lemma CommittedBefore(s: State, s': State, p: nat, q: nat, l: nat)
    requires Did(s, s', p) && q < |s.pc| && l < |s.lk| && Committed(s', q, l)
    ensures Committed(s, q, l) || s.pc[q] == SleepLocked(l)
  {
    hide Scans, LkOf, PlockOf, Swap, Takes;
  }

  lemma QuietState(pc: Pc, q: nat, run: RunState, chan: Option<nat>, n: nat, channels: nat)
    requires StateOk(pc, q, run, chan, n, channels)
    requires PlockOf(pc, q) != Some(q) && (run == Sleeping || (run == Running && LkOf(pc) == None))
    ensures StateOk(pc, q, Runnable, chan, n, channels) && !GivenUp(pc, Runnable)
  {
  }

  lemma QuietKeeps(s: State, step: Step)
    requires Inv(s) && Enabled(s, step) && (step.Preempt? || step.Kill?)
    ensures Inv(Next(s, step))
  {
    hide Statement, LkOf, PlockOf, StateOk, Knows, GivenUp, Consistent;
    var s' := Next(s, step);
    var p := step.p;
    assert LocalOk(s, p);
    if s'.run[p] != s.run[p] {
      FreeLock(s, p);
      QuietState(s.pc[p], p, s.run[p], s.chan[p], |s.pc|, |s.lk|);
    }
    forall q: nat | q < |s.pc| ensures LocalOk(s', q) {
      assert LocalOk(s, q);
    }
    forall q: nat, l: nat | q < |s.pc| && l < |s.lk| && Committed(s', q, l) ensures !s'.ready[l] || Coming(s', q, l) {
      assert Committed(s, q, l);
    }
  }

  lemma FreeLock(s: State, p: nat)
    requires Shape(s) && LocksOk(s) && p < |s.pc| && s.plock[p] == None
    ensures PlockOf(s.pc[p], p) != Some(p)
  {
    assert PlocksOf(s.pc)[p] == PlockOf(s.pc[p], p);
  }

  /** Every step keeps the invariant. */
  lemma StepKeeps(s: State, step: Step)
    requires Inv(s) && Enabled(s, step)
    ensures Inv(Next(s, step))
  {
    hide LocksOk, LocalOk, Committed, Coming, Next;
    if step.Preempt? || step.Kill? {
      QuietKeeps(s, step);
    } else {
      var s' := Next(s, step);
      StepDid(s, step);
      DidLocks(s, s', step.p);
      forall q: nat | q < |s.pc| ensures LocalOk(s', q) {
        if q != step.p {
          DidLocal(s, s', step.p, q);
        }
      }
      forall q: nat, l: nat | q < |s.pc| && l < |s.lk| && Committed(s', q, l) ensures !s'.ready[l] || Coming(s', q, l) {
        DidWakeup(s, s', step.p, q, l);
      }
    }
  }

  // ---------------------------------------------------------------------
  // Whole runs

  ghost predicate IsRun(s: State, steps: seq<Step>)
    decreases |steps|
  {
    steps == [] || (Enabled(s, steps[0]) && IsRun(Next(s, steps[0]), steps[1..]))
  }

  ghost function After(s: State, steps: seq<Step>): State
    requires IsRun(s, steps)
    decreases |steps|
  {
    if steps == [] then s else After(Next(s, steps[0]), steps[1..])
  }

  lemma {:induction false} RunKeeps(s: State, steps: seq<Step>)
    requires Inv(s) && IsRun(s, steps)
    ensures Inv(After(s, steps))
    decreases |steps|
  {
    hide Inv, Enabled, Next;
    if steps != [] {
      StepKeeps(s, steps[0]);
      RunKeeps(Next(s, steps[0]), steps[1..]);
    }
  }

  /**
    No lost wakeup: in every state of every run, a process that sleeps on a channel whose
    condition holds is still ahead of a waker; once the channel's spinlock is free there is
    no such process.
   */
  lemma NoLostWakeup(s: State, steps: seq<Step>, p: nat, l: nat)
    requires Init(s) && IsRun(s, steps)
    requires var t := After(s, steps);
               Shape(t) && p < |t.pc| && l < |t.lk| && t.run[p] == Sleeping && t.chan[p] == Some(l)
    ensures var t := After(s, steps); t.ready[l] ==> Coming(t, p, l)
    ensures var t := After(s, steps); t.lk[l] == None ==> !t.ready[l]
  {
    hide After, IsRun;
    InitInv(s);
    RunKeeps(s, steps);
    var t := After(s, steps);
    assert LocalOk(t, p);
    assert Committed(t, p, l);
  }

  /** The process lock p waits for, if any. */
  function WaitsFor(pc: Pc, p: nat): Option<nat> {
    match pc
    case SleepEntry(_) => Some(p)
    case WakeScan(_, k) => Some(k)
    case _ => None
  }

  /** A process inside a locked section can move unless it waits for a process lock. */
  lemma CanMove(s: State, p: nat)
    requires Shape(s) && p < |s.pc| && LocalOk(s, p) && (LkOf(s.pc[p]).Some? ==> LkOf(s.pc[p]).value < |s.lk|)
    requires LkOf(s.pc[p]).Some? || PlockOf(s.pc[p], p).Some?
    requires WaitsFor(s.pc[p], p).Some? && WaitsFor(s.pc[p], p).value < |s.pc| ==>
               s.plock[WaitsFor(s.pc[p], p).value] == None
    ensures Enabled(s, Advance(p, false))
  {
  }

  /** Whoever holds a spinlock can move, or waits for somebody who can. */
  lemma NoSpinDeadlock(s: State, p: nat) returns (q: nat)
    requires Inv(s) && p < |s.pc| && (LkOf(s.pc[p]).Some? || PlockOf(s.pc[p], p).Some?)
    ensures q < |s.pc| && Enabled(s, Advance(q, false)) && (LkOf(s.pc[q]).Some? || PlockOf(s.pc[q], q).Some?)
  {
    hide WakeupsOk, StateOk, Knows, LkOf, Enabled;
    var w := WaitsFor(s.pc[p], p);
    q := if w.Some? && w.value < |s.pc| && s.plock[w.value].Some? then s.plock[w.value].value else p;
    if q != p || (w.Some? && w.value < |s.pc| && s.plock[w.value].Some?) {
      assert PlocksOf(s.pc)[q] == PlockOf(s.pc[q], q) == Some(w.value);
    }
    assert LksOf(s.pc)[q] == LkOf(s.pc[q]);
    assert LocalOk(s, q);
    CanMove(s, q);
  }

  // ---------------------------------------------------------------------
  // Sleeplocks: the condition is "not locked", and only the holder releases

  /** Who is between acquiresleep and releasesleep of which lock. */
  ghost function Inside(s: State, step: Step, inside: set<(nat, nat)>): set<(nat, nat)>
    requires Enabled(s, step)
  {
    match step
    case Advance(p, _) => if s.pc[p].WaitDone? then inside + {(p, s.pc[p].l)} else inside
    case BeginSignal(p, l) => inside - {(p, l)}
    case _ => inside
  }

  /** acquiresleep leaves the lock locked; releasesleep is called by the process inside. */
  ghost predicate Disciplined(s: State, step: Step, inside: set<(nat, nat)>) {
    && Enabled(s, step)
    && (step.Advance? ==> !step.keep)
    && (step.BeginSignal? ==> (step.p, step.l) in inside)
  }

  predicate Releasing(pc: Pc) { pc.SignalEntry? || pc.SignalChange? }

  ghost predicate MutexInv(s: State, inside: set<(nat, nat)>) {
    && Shape(s)
    && (forall l: nat | l < |s.lk| :: s.ready[l] <==> s.owner[l] == None)
    && (forall x | x in inside :: x.0 < |s.pc| && x.1 < |s.lk| && s.owner[x.1] == Some(x.0))
    && (forall p: nat | p < |s.pc| && (s.pc[p].WaitDone? || Releasing(s.pc[p])) ::
          s.pc[p].l < |s.lk| && s.owner[s.pc[p].l] == Some(p) && (p, s.pc[p].l) !in inside)
  }

  /** The steps that concern who owns a sleeplock. */
  predicate Owns(s: State, step: Step)
    requires step.p < |s.pc|
  {
    step.BeginSignal? || (step.Advance?
      && (s.pc[step.p].WaitTake? || s.pc[step.p].WaitDone? || Releasing(s.pc[step.p])))
  }

  /** Owners and conditions stay, and nobody arrives at a point where ownership matters. */
  ghost predicate NoClaim(s: State, s': State) {
    && Shape(s) && Shape(s') && s'.owner == s.owner && s'.ready == s.ready && |s'.pc| == |s.pc|
    && (forall q: nat | q < |s.pc| && s'.pc[q] != s.pc[q] :: !s'.pc[q].WaitDone? && !Releasing(s'.pc[q]))
  }

  lemma SleepStatements(s: State, p: nat, keep: bool)
    requires Enabled(s, Advance(p, keep)) && !Owns(s, Advance(p, keep)) && !s.pc[p].WakeScan? && !s.pc[p].WakeLook?
    ensures NoClaim(s, Statement(s, p, keep))
  {
  }

  lemma WakeStatements(s: State, p: nat, keep: bool)
    requires Enabled(s, Advance(p, keep)) && (s.pc[p].WakeScan? || s.pc[p].WakeLook?)
    ensures NoClaim(s, Statement(s, p, keep))
  {
  }

  lemma OtherSteps(s: State, step: Step)
    requires Enabled(s, step) && !Owns(s, step)
    ensures NoClaim(s, Next(s, step))
  {
    hide Statement;
    if step.Advance? {
      if s.pc[step.p].WakeScan? || s.pc[step.p].WakeLook? {
        WakeStatements(s, step.p, step.keep);
      } else {
        SleepStatements(s, step.p, step.keep);
      }
    }
  }

  lemma OwnSteps(s: State, step: Step, inside: set<(nat, nat)>)
    requires MutexInv(s, inside) && Disciplined(s, step, inside) && Owns(s, step) && LocalOk(s, step.p)
    ensures MutexInv(Next(s, step), Inside(s, step, inside))
  {
    var p := step.p;
    if step.Advance? {
      match s.pc[p]
      case WaitTake(l) => assert Next(s, step)
        == Goto(s, p, WaitDone(l)).(ready := s.ready[l := false], owner := s.owner[l := Some(p)]);
      case WaitDone(l) => assert Next(s, step) == Goto(s, p, Idle).(lk := s.lk[l := None]);
      case SignalEntry(l) => assert Next(s, step) == Goto(s, p, SignalChange(l)).(lk := s.lk[l := Some(p)]);
      case SignalChange(l) => assert Next(s, step)
        == Goto(s, p, WakeScan(l, 0)).(ready := s.ready[l := true], owner := s.owner[l := None]);
    }
  }

  lemma MutexStep(s: State, step: Step, inside: set<(nat, nat)>)
    requires Inv(s) && MutexInv(s, inside) && Disciplined(s, step, inside)
    ensures MutexInv(Next(s, step), Inside(s, step, inside))
  {
    hide LocksOk, WakeupsOk, LocalOk, Next;
    assert LocalOk(s, step.p);
    if Owns(s, step) {
      OwnSteps(s, step, inside);
    } else {
      OtherSteps(s, step);
    }
  }

  ghost predicate IsDisciplined(s: State, steps: seq<Step>, inside: set<(nat, nat)>)
    decreases |steps|
  {
    steps == [] || (Disciplined(s, steps[0], inside)
      && IsDisciplined(Next(s, steps[0]), steps[1..], Inside(s, steps[0], inside)))
  }

  ghost function InsideAfter(s: State, steps: seq<Step>, inside: set<(nat, nat)>): set<(nat, nat)>
    requires IsDisciplined(s, steps, inside)
    decreases |steps|
  {
    if steps == [] then inside else InsideAfter(Next(s, steps[0]), steps[1..], Inside(s, steps[0], inside))
  }

  lemma {:induction false} MutexRun(s: State, steps: seq<Step>, inside: set<(nat, nat)>)
    requires Inv(s) && MutexInv(s, inside) && IsDisciplined(s, steps, inside)
    ensures IsRun(s, steps) && MutexInv(After(s, steps), InsideAfter(s, steps, inside))
    decreases |steps|
  {
    hide Inv, Next, MutexInv, Inside, Enabled;
    if steps != [] {
      StepKeeps(s, steps[0]);
      MutexStep(s, steps[0], inside);
      MutexRun(Next(s, steps[0]), steps[1..], Inside(s, steps[0], inside));
    }
  }

  /** In every run of acquiresleep and releasesleep at most one process is inside each sleeplock. */
  lemma MutualExclusion(s: State, steps: seq<Step>)
    requires Init(s) && IsDisciplined(s, steps, {})
    ensures IsRun(s, steps) && AtMostOne(InsideAfter(s, steps, {}))
  {
    hide Inv, MutexInv, IsDisciplined;
    InitInv(s);
    InitMutex(s);
    MutexRun(s, steps, {});
    OneInside(After(s, steps), InsideAfter(s, steps, {}));
  }

  lemma InitMutex(s: State)
    requires Init(s)
    ensures MutexInv(s, {})
  {
  }

  ghost predicate AtMostOne(inside: set<(nat, nat)>) {
    forall x, y | x in inside && y in inside && x.1 == y.1 :: x == y
  }

  lemma OneInside(s: State, inside: set<(nat, nat)>)
    requires MutexInv(s, inside)
    ensures AtMostOne(inside)
  {
  }
}
