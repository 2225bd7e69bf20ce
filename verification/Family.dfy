/**
  fork, exit, wait and reparent (kernel/proc.c) under arbitrary interleaving.  Each step is
  one statement of one process.  wait_lock is a lock that acquire waits for; wakeup and
  sleep are single steps here, and a sleeping process may also be woken at any time.

  Process 0 is init.  `exited` and `reaped` record what happened to each pid.
 */
module Family {
  import opened Prelude

  datatype RunState = Unused | Used | Runnable | Running | Sleeping | Zombie

  datatype Pc =
    | Idle
    | ForkCopy(np: nat)                     // allocated, before uvmcopy
    | ForkLock(np: nat)                     // before acquire(&wait_lock)
    | ForkLink(np: nat)                     // np->parent = p
    | ForkUnlock(np: nat)                   // before release(&wait_lock)
    | ForkRun(np: nat)                      // np->state = RUNNABLE
    | ExitLock(status: int)                 // before acquire(&wait_lock)
    | ExitScan(status: int, k: nat)         // reparent: before looking at process k
    | ExitPoke(status: int, k: nat)         // wakeup(initproc)
    | ExitNotify(status: int)               // wakeup(p->parent)
    | ExitZombie(status: int)               // p->state = ZOMBIE; release(&wait_lock)
    | Dead
    | WaitLock                              // before acquire(&wait_lock)
    | WaitScan(k: nat, kids: bool)          // before looking at process k
    | WaitDecide(kids: bool)                // if (!havekids || killed(p))
    | Asleep                                // sleep(p, &wait_lock), before it takes wait_lock again

  /** The process table, field by field; forker says who is creating a process. */
  datatype State = State(
    st: seq<RunState>,
    parent: seq<Option<nat>>,
    pid: seq<nat>,
    xstate: seq<int>,
    pc: seq<Pc>,
    forker: seq<Option<nat>>,
    waitLock: Option<nat>,
    nextpid: nat,
    exited: map<nat, int>,
    reaped: map<nat, (nat, int)>)    // pid to the reaper's pid and the status it was given

  datatype Step =
    | Fork(p: nat, np: nat)
    | Exit(p: nat, status: int)
    | Wait(p: nat)
    | Advance(p: nat, fail: bool)    // next statement; fail: uvmcopy or copyout fails, or the process was killed
    | Schedule(p: nat)
    | Yield(p: nat)
    | Block(p: nat)                  // sleep on some other channel
    | Wake(p: nat)                   // any other wakeup, or kill

  const INIT: nat := 0

  predicate Alive(st: RunState) { st == Runnable || st == Running || st == Sleeping }

  predicate Holds(pc: Pc) {
    pc.ForkLink? || pc.ForkUnlock? || pc.ExitScan? || pc.ExitPoke? || pc.ExitNotify? || pc.ExitZombie?
    || pc.WaitScan? || pc.WaitDecide?
  }

  predicate Forking(pc: Pc) { pc.ForkCopy? || pc.ForkLock? || pc.ForkLink? || pc.ForkUnlock? || pc.ForkRun? }

  predicate Exiting(pc: Pc) { pc.ExitLock? || pc.ExitScan? || pc.ExitPoke? || pc.ExitNotify? || pc.ExitZombie? }

  predicate InWait(pc: Pc) { pc.WaitLock? || pc.WaitScan? || pc.WaitDecide? || pc.Asleep? }

  ghost predicate Shape(s: State) {
    && |s.parent| == |s.st| && |s.pid| == |s.st| && |s.xstate| == |s.st| && |s.pc| == |s.st| && |s.forker| == |s.st|
    && INIT < |s.st|
  }

  ghost predicate Enabled(s: State, step: Step) {
    && Shape(s) && step.p < |s.st|
    && match step
       case Fork(p, np) => s.st[p] == Running && s.pc[p] == Idle && np < |s.st| && s.st[np] == Unused
       case Exit(p, _) => s.st[p] == Running && s.pc[p] == Idle && p != INIT     // init exiting is a panic
       case Wait(p) => s.st[p] == Running && s.pc[p] == Idle
       case Advance(p, _) =>
         && s.st[p] == Running && s.pc[p] != Idle && s.pc[p] != Dead
         && (s.pc[p].ForkLock? || s.pc[p].ExitLock? || s.pc[p].WaitLock? || s.pc[p].Asleep? ==> s.waitLock == None)
         && (Forking(s.pc[p]) ==> s.pc[p].np < |s.st|)
       case Schedule(p) => s.st[p] == Runnable
       case Yield(p) => s.st[p] == Running && !Holds(s.pc[p])
       case Block(p) => s.st[p] == Running && s.pc[p] == Idle
       case Wake(p) => s.st[p] == Sleeping
  }

  function Goto(s: State, p: nat, pc: Pc): State
    requires p < |s.pc|
  {
    s.(pc := s.pc[p := pc])
  }

  /** wakeup of the processes that wait for process q's children: that is q itself. */
  function Woken(st: seq<RunState>, pc: seq<Pc>, q: nat): seq<RunState> {
    if q < |st| && q < |pc| && st[q] == Sleeping && pc[q] == Asleep then st[q := Runnable] else st
  }

  function ForkStatement(s: State, p: nat, fail: bool): State
    requires Shape(s) && p < |s.st| && Forking(s.pc[p]) && s.pc[p].np < |s.st|
  {
    var np := s.pc[p].np;
    match s.pc[p]
    case ForkCopy(_) => if fail then Freed(Goto(s, p, Idle), np) else Goto(s, p, ForkLock(np))
    case ForkLock(_) => Goto(s, p, ForkLink(np)).(waitLock := Some(p))
    case ForkLink(_) => Goto(s, p, ForkUnlock(np)).(parent := s.parent[np := Some(p)])
    case ForkUnlock(_) => Goto(s, p, ForkRun(np)).(waitLock := None)
    case ForkRun(_) => Goto(s, p, Idle).(st := s.st[np := Runnable])
  }

  /** freeproc. */
  function Freed(s: State, k: nat): State
    requires Shape(s) && k < |s.st|
  {
    s.(st := s.st[k := Unused], parent := s.parent[k := None], pid := s.pid[k := 0], xstate := s.xstate[k := 0],
      pc := s.pc[k := Idle])
  }

  function ExitStatement(s: State, p: nat): State
    requires Shape(s) && p < |s.st| && Exiting(s.pc[p])
  {
    match s.pc[p]
    case ExitLock(status) => Goto(s, p, ExitScan(status, 0)).(waitLock := Some(p))
    case ExitScan(status, k) =>
      if k >= |s.st| then Goto(s, p, ExitNotify(status))
      else if s.parent[k] == Some(p) then Goto(s, p, ExitPoke(status, k)).(parent := s.parent[k := Some(INIT)])
      else Goto(s, p, ExitScan(status, k + 1))
    case ExitPoke(status, k) => Goto(s, p, ExitScan(status, k + 1)).(st := Woken(s.st, s.pc, INIT))
    case ExitNotify(status) =>
      Goto(s, p, ExitZombie(status)).(st := if s.parent[p].Some? then Woken(s.st, s.pc, s.parent[p].value) else s.st)
    case ExitZombie(status) =>
      Goto(s, p, Dead).(st := s.st[p := Zombie], xstate := s.xstate[p := status], waitLock := None,
                        exited := s.exited[s.pid[p] := status])
  }

  function WaitStatement(s: State, p: nat, fail: bool): State
    requires Shape(s) && p < |s.st| && InWait(s.pc[p])
  {
    match s.pc[p]
    case WaitLock => Goto(s, p, WaitScan(0, false)).(waitLock := Some(p))
    case Asleep => Goto(s, p, WaitScan(0, false)).(waitLock := Some(p))
    case WaitScan(k, kids) =>
      if k >= |s.st| then Goto(s, p, WaitDecide(kids))
      else if s.parent[k] != Some(p) then Goto(s, p, WaitScan(k + 1, kids))
      else if s.st[k] != Zombie then Goto(s, p, WaitScan(k + 1, true))
      else if fail then Goto(s, p, Idle).(waitLock := None)
      else Goto(Freed(s, k), p, Idle).(waitLock := None, reaped := s.reaped[s.pid[k] := (s.pid[p], s.xstate[k])])
    case WaitDecide(kids) =>
      if !kids || fail then Goto(s, p, Idle).(waitLock := None)
      else Goto(s, p, Asleep).(st := s.st[p := Sleeping], waitLock := None)
  }

  function Next(s: State, step: Step): State
    requires Enabled(s, step)
  {
    match step
    case Fork(p, np) =>
      Goto(s, p, ForkCopy(np)).(st := s.st[np := Used], pid := s.pid[np := s.nextpid],
        forker := s.forker[np := Some(p)],
                                nextpid := s.nextpid + 1)
    case Exit(p, status) => Goto(s, p, ExitLock(status))
    case Wait(p) => Goto(s, p, WaitLock)
    case Advance(p, fail) =>
      if Forking(s.pc[p]) then ForkStatement(s, p, fail)
      else if Exiting(s.pc[p]) then ExitStatement(s, p)
      else WaitStatement(s, p, fail)
    case Schedule(p) => s.(st := s.st[p := Running])
    case Yield(p) => s.(st := s.st[p := Runnable])
    case Block(p) => s.(st := s.st[p := Sleeping])
    case Wake(p) => s.(st := s.st[p := Runnable])
  }

  // ---------------------------------------------------------------------
  // The invariant

  /** The family: every process but init that lives or has exited has a living parent. */
  ghost predicate Tree(st: seq<RunState>, parent: seq<Option<nat>>) {
    && |parent| == |st| && INIT < |st| && Alive(st[INIT]) && parent[INIT] == None
    && (forall k: nat {:trigger parent[k]} | k < |st| && parent[k].Some? ::
          parent[k].value < |st| && Alive(st[parent[k].value]) && st[k] != Unused)
    && (forall k: nat {:trigger parent[k]} | k < |st| && k != INIT
      && (Alive(st[k]) || st[k] == Zombie) :: parent[k].Some?)
  }

  /** State and program point agree. */
  ghost predicate Phases(st: seq<RunState>, pc: seq<Pc>) {
    && |pc| == |st| && INIT < |st| && !Exiting(pc[INIT])
    && (forall k: nat {:trigger pc[k]} | k < |st| :: PhaseOk(st[k], pc[k]))
  }

  predicate PhaseOk(st: RunState, pc: Pc) {
    && (st == Unused || st == Used ==> pc == Idle)
    && (st == Zombie <==> pc == Dead)
    && (st == Sleeping ==> pc == Idle || pc == Asleep)
    && (Holds(pc) ==> st == Running)
  }

  /** A process being created belongs to the one process that is forking it. */
  ghost predicate Births(st: seq<RunState>, parent: seq<Option<nat>>, pc: seq<Pc>, forker: seq<Option<nat>>) {
    && |parent| == |st| && |pc| == |st| && |forker| == |st|
    && (forall p: nat {:trigger pc[p]} | p < |st| && Forking(pc[p]) ::
          && pc[p].np < |st| && st[pc[p].np] == Used && forker[pc[p].np] == Some(p)
          && parent[pc[p].np] == if pc[p].ForkUnlock? || pc[p].ForkRun? then Some(p) else None)
  }

  ghost predicate Childless(parent: seq<Option<nat>>, p: nat, n: nat) {
    forall k: nat | k < n && k < |parent| :: parent[k] != Some(p)
  }

  ghost predicate NoZombies(st: seq<RunState>, parent: seq<Option<nat>>, p: nat, n: nat) {
    forall k: nat | k < n && k < |parent| && k < |st| && parent[k] == Some(p) :: st[k] != Zombie
  }

  predicate Waiting(st: seq<RunState>, pc: seq<Pc>, p: nat) {
    p < |st| && p < |pc| && st[p] == Sleeping && pc[p] == Asleep
  }

  /** What the scans of exit and wait have established so far. */
  ghost predicate ScanOk(st: seq<RunState>, parent: seq<Option<nat>>, pc: seq<Pc>, p: nat)
    requires p < |pc| && |parent| == |st| && |pc| == |st|
  {
    match pc[p]
    case ExitScan(_, k) => Childless(parent, p, k)
    case ExitPoke(_, k) => k < |st| && Childless(parent, p, k + 1)
    case ExitNotify(_) => Childless(parent, p, |st|)
    case ExitZombie(_) => Childless(parent, p, |st|) && (parent[p].Some? ==> !Waiting(st, pc, parent[p].value))
    case WaitScan(k, kids) => NoZombies(st, parent, p, k) && (!kids ==> Childless(parent, p, k))
    case WaitDecide(kids) => NoZombies(st, parent, p, |st|) && (!kids ==> Childless(parent, p, |st|))
    case _ => true
  }

  ghost predicate Scans(st: seq<RunState>, parent: seq<Option<nat>>, pc: seq<Pc>) {
    && |parent| == |st| && |pc| == |st|
    && forall p: nat | p < |st| :: ScanOk(st, parent, pc, p)
  }

  /** Nobody sleeps in wait with a zombie child, except init between a reparenting and the wakeup right after it. */
  ghost predicate Waiters(st: seq<RunState>, parent: seq<Option<nat>>, pc: seq<Pc>, waitLock: Option<nat>) {
    forall p: nat | Waiting(st, pc, p) && !NoZombies(st, parent, p, |st|) ::
      p == INIT && waitLock.Some? && waitLock.value < |pc| && pc[waitLock.value].ExitPoke?
  }

  ghost predicate LockOk(pc: seq<Pc>, waitLock: Option<nat>) {
    && (waitLock.Some? ==> waitLock.value < |pc| && Holds(pc[waitLock.value]))
    && (forall p: nat | p < |pc| && Holds(pc[p]) :: waitLock == Some(p))
  }

  /** Pids are never used twice; a reaped pid is gone and its status is the one it exited with. */
  ghost predicate Pids(st: seq<RunState>, pid: seq<nat>, xstate: seq<int>, nextpid: nat, exited: map<nat, int>,
    reaped: map<nat, (nat, int)>) {
    && |pid| == |st| && |xstate| == |st| && 0 < nextpid
    && (forall p: nat | p < |st| && st[p] != Unused :: 0 < pid[p] < nextpid && pid[p] !in reaped)
    && (forall p: nat, q: nat | p < |st| && q < |st| && st[p] != Unused && st[q] != Unused
      && pid[p] == pid[q] :: p == q)
    && (forall p: nat | p < |st| && st[p] != Unused :: pid[p] in exited <==> st[p] == Zombie)
    && (forall p: nat | p < |st| && st[p] == Zombie :: exited[pid[p]] == xstate[p])
    && (forall i | i in exited :: i < nextpid)
    && (forall i | i in reaped :: i in exited && reaped[i].1 == exited[i])
  }

  ghost predicate Inv(s: State) {
    && Shape(s) && Tree(s.st, s.parent) && Phases(s.st, s.pc) && Births(s.st, s.parent, s.pc, s.forker)
    && Scans(s.st, s.parent, s.pc) && Waiters(s.st, s.parent, s.pc, s.waitLock) && LockOk(s.pc, s.waitLock)
    && Pids(s.st, s.pid, s.xstate, s.nextpid, s.exited, s.reaped)
  }

  // ---------------------------------------------------------------------
  // Every step keeps it

  /** Reparenting one child to init. */
  predicate Adopts(s: State, step: Step)
    requires step.p < |s.pc|
  {
    && step.Advance? && s.pc[step.p].ExitScan? && s.pc[step.p].k < |s.parent|
      && s.parent[s.pc[step.p].k] == Some(step.p)
  }

  /** wait finds a zombie child and frees it. */
  predicate Reaps(s: State, step: Step)
    requires step.p < |s.pc|
  {
    && step.Advance? && !step.fail && s.pc[step.p].WaitScan? && s.pc[step.p].k < |s.parent| && s.pc[step.p].k < |s.st|
    && s.parent[s.pc[step.p].k] == Some(step.p) && s.st[s.pc[step.p].k] == Zombie
  }

  /** The part of the invariant that speaks neither of wait_lock nor of pids. */
  ghost predicate Kin(s: State) {
    Tree(s.st, s.parent) && Phases(s.st, s.pc) && Births(s.st, s.parent, s.pc, s.forker)
  }

  /** No pid or status changes, and nobody is born, dies or is reaped. */
  ghost predicate SamePids(s: State, s': State) {
    && s'.pid == s.pid && s'.xstate == s.xstate && s'.nextpid == s.nextpid && s'.exited == s.exited
      && s'.reaped == s.reaped
    && |s'.st| == |s.st| && forall k: nat | k < |s.st| ::
          (s'.st[k] == Unused <==> s.st[k] == Unused) && (s'.st[k] == Zombie <==> s.st[k] == Zombie)
  }

  /** The steps that change the family. */
  predicate Heavy(s: State, step: Step)
    requires step.p < |s.pc|
  {
    || step.Fork? || Adopts(s, step) || Reaps(s, step)
    || (step.Advance? && (s.pc[step.p].ForkLink? || s.pc[step.p].ForkRun? || s.pc[step.p].ExitZombie?
      || (s.pc[step.p].ForkCopy? && step.fail)))
  }

  predicate Linked(pc: Pc) { pc.ForkUnlock? || pc.ForkRun? }

  /** Only program points change, and states among those of living processes. */
  ghost predicate Light(s: State, s': State, p: nat) {
    && Shape(s) && Shape(s') && p < |s.st| == |s'.st|
    && s'.parent == s.parent && s'.pid == s.pid && s'.xstate == s.xstate && s'.forker == s.forker
    && s'.nextpid == s.nextpid && s'.exited == s.exited && s'.reaped == s.reaped
    && s'.pc == s.pc[p := s'.pc[p]] && PhaseOk(s'.st[p], s'.pc[p]) && (p == INIT ==> !Exiting(s'.pc[p]))
    && (Forking(s'.pc[p]) ==> Forking(s.pc[p]) && s'.pc[p].np == s.pc[p].np && (Linked(s'.pc[p]) <==> Linked(s.pc[p])))
    && (forall k: nat | k < |s.st| && s'.st[k] != s.st[k] ::
          Alive(s'.st[k]) && Alive(s.st[k]) && (k != p ==> PhaseOk(s'.st[k], s.pc[k])))
  }

  lemma ForkLight(s: State, step: Step)
    requires Inv(s) && Enabled(s, step) && !Heavy(s, step) && step.Advance? && Forking(s.pc[step.p])
    ensures Light(s, Next(s, step), step.p)
  {
    hide Tree, Births, Scans, Waiters, LockOk, Pids, ExitStatement, WaitStatement;
  }

  lemma ExitLight(s: State, step: Step)
    requires Inv(s) && Enabled(s, step) && !Heavy(s, step) && step.Advance? && Exiting(s.pc[step.p])
    ensures Light(s, Next(s, step), step.p)
  {
    hide Tree, Births, Scans, Waiters, LockOk, Pids, ForkStatement, WaitStatement, Freed;
  }

  lemma WaitLight(s: State, step: Step)
    requires Inv(s) && Enabled(s, step) && step.Advance? && InWait(s.pc[step.p]) && !s.pc[step.p].WaitScan?
    ensures Light(s, Next(s, step), step.p)
  {
    hide Tree, Births, Scans, Waiters, LockOk, Pids, ForkStatement, ExitStatement;
  }

  lemma ScanLight(s: State, step: Step)
    requires Inv(s) && Enabled(s, step) && step.Advance? && s.pc[step.p].WaitScan? && !Reaps(s, step)
    ensures Light(s, Next(s, step), step.p)
  {
    hide Tree, Births, Scans, Waiters, LockOk, Pids, Freed, ForkStatement, ExitStatement;
  }

  lemma OtherLight(s: State, step: Step)
    requires Inv(s) && Enabled(s, step) && !Heavy(s, step) && !step.Advance?
    ensures Light(s, Next(s, step), step.p)
  {
    hide Tree, Births, Scans, Waiters, LockOk, Pids, ForkStatement, ExitStatement, WaitStatement, Freed;
  }

  lemma LightKeeps(s: State, s': State, p: nat)
    requires Light(s, s', p) && Kin(s)
    ensures Kin(s') && SamePids(s, s')
  {
    hide Holds;
  }

  lemma PidsKept(s: State, s': State)
    requires SamePids(s, s') && Pids(s.st, s.pid, s.xstate, s.nextpid, s.exited, s.reaped)
    ensures Pids(s'.st, s'.pid, s'.xstate, s'.nextpid, s'.exited, s'.reaped)
  {
  }

  lemma ForkKeeps(s: State, step: Step)
    requires Inv(s) && Enabled(s, step) && step.Fork?
    ensures Kin(Next(s, step))
  {
    hide Waiters, LockOk, Pids, Scans, ForkStatement, ExitStatement, WaitStatement, Freed;
  }

  lemma ForkPids(s: State, step: Step)
    requires Inv(s) && Enabled(s, step) && step.Fork?
    ensures var s' := Next(s, step); Pids(s'.st, s'.pid, s'.xstate, s'.nextpid, s'.exited, s'.reaped)
  {
    hide Waiters, LockOk, Scans, Tree, ForkStatement, ExitStatement, WaitStatement, Freed;
  }

  lemma UnforkKeeps(s: State, step: Step)
    requires Inv(s) && Enabled(s, step) && step.Advance? && s.pc[step.p].ForkCopy? && step.fail
    ensures Kin(Next(s, step))
  {
    hide Waiters, LockOk, Pids, Scans, ExitStatement, WaitStatement;
  }

  lemma UnforkPids(s: State, step: Step)
    requires Inv(s) && Enabled(s, step) && step.Advance? && s.pc[step.p].ForkCopy? && step.fail
    ensures var s' := Next(s, step); Pids(s'.st, s'.pid, s'.xstate, s'.nextpid, s'.exited, s'.reaped)
  {
    hide Waiters, LockOk, Scans, Tree, ExitStatement, WaitStatement;
  }

  lemma LinkKeeps(s: State, step: Step)
    requires Inv(s) && Enabled(s, step) && step.Advance? && s.pc[step.p].ForkLink?
    ensures Kin(Next(s, step))
    ensures SamePids(s, Next(s, step))
  {
    hide Waiters, LockOk, Pids, Scans, ExitStatement, WaitStatement, Freed;
  }

  lemma LaunchKeeps(s: State, step: Step)
    requires Inv(s) && Enabled(s, step) && step.Advance? && s.pc[step.p].ForkRun?
    ensures Kin(Next(s, step))
    ensures SamePids(s, Next(s, step))
  {
    hide Waiters, LockOk, Pids, Scans, ExitStatement, WaitStatement, Freed;
  }

  lemma AdoptKeeps(s: State, step: Step)
    requires Inv(s) && Enabled(s, step) && Adopts(s, step)
    ensures Kin(Next(s, step))
    ensures SamePids(s, Next(s, step))
  {
    hide Waiters, LockOk, Pids, Scans, ForkStatement, WaitStatement, Freed;
  }

  lemma DieKeeps(s: State, step: Step)
    requires Inv(s) && Enabled(s, step) && step.Advance? && s.pc[step.p].ExitZombie?
    ensures Kin(Next(s, step))
  {
    hide Waiters, LockOk, Pids, ForkStatement, WaitStatement, Freed;
    assert ScanOk(s.st, s.parent, s.pc, step.p);
  }

  lemma DiePids(s: State, step: Step)
    requires Inv(s) && Enabled(s, step) && step.Advance? && s.pc[step.p].ExitZombie?
    ensures var s' := Next(s, step); Pids(s'.st, s'.pid, s'.xstate, s'.nextpid, s'.exited, s'.reaped)
  {
    hide Waiters, LockOk, Scans, Tree, ForkStatement, WaitStatement, Freed;
  }

  lemma ReapKeeps(s: State, step: Step)
    requires Inv(s) && Enabled(s, step) && Reaps(s, step)
    ensures Kin(Next(s, step))
  {
    hide Waiters, LockOk, Pids, Scans, ForkStatement, ExitStatement;
  }

  lemma ReapPids(s: State, step: Step)
    requires Inv(s) && Enabled(s, step) && Reaps(s, step)
    ensures var s' := Next(s, step); Pids(s'.st, s'.pid, s'.xstate, s'.nextpid, s'.exited, s'.reaped)
  {
    hide Waiters, LockOk, Scans, Tree, ForkStatement, ExitStatement;
  }

  /**
    Nobody's parent changes, no zombie is made, nobody falls asleep in wait, and whoever holds
    wait_lock stays where it is.
   */
  ghost predicate Apart(s: State, s': State, p: nat) {
    && Shape(s) && Shape(s') && p < |s.st| == |s'.st| && s'.parent == s.parent
    && (forall k: nat | k < |s.st| :: s'.st[k] == Zombie <==> s.st[k] == Zombie)
    && (forall k: nat | Waiting(s'.st, s'.pc, k) :: Waiting(s.st, s.pc, k))
    && (s.waitLock.Some? ==> s'.waitLock == s.waitLock) && (Holds(s.pc[p]) ==> s'.pc == s.pc)
    && (forall k: nat | k < |s.st| && k != p && s'.pc[k] != s.pc[k] :: s'.pc[k] == Idle && !Holds(s.pc[k]))
  }

  lemma ForkApart(s: State, step: Step)
    requires Inv(s) && Enabled(s, step) && step.Advance? && Forking(s.pc[step.p]) && !Holds(s.pc[step.p])
    ensures Apart(s, Next(s, step), step.p)
  {
    hide Tree, Waiters, LockOk, Pids, Scans;
  }

  lemma ExitApart(s: State, step: Step)
    requires Inv(s) && Enabled(s, step) && step.Advance? && Exiting(s.pc[step.p]) && !Holds(s.pc[step.p])
    ensures Apart(s, Next(s, step), step.p)
  {
    hide Tree, Waiters, LockOk, Pids, Scans, Births;
  }

  lemma WaitApart(s: State, step: Step)
    requires Inv(s) && Enabled(s, step) && step.Advance? && InWait(s.pc[step.p]) && !Holds(s.pc[step.p])
    ensures Apart(s, Next(s, step), step.p)
  {
    hide Tree, Waiters, LockOk, Pids, Scans, Births;
  }

  lemma OtherApart(s: State, step: Step)
    requires Inv(s) && Enabled(s, step) && !step.Advance?
    ensures Apart(s, Next(s, step), step.p)
  {
    hide Tree, Waiters, LockOk, Pids, Scans, Births;
  }

  /** A process that does not hold wait_lock disturbs nobody who does. */
  lemma Outside(s: State, step: Step)
    requires Inv(s) && Enabled(s, step) && !(step.Advance? && Holds(s.pc[step.p]))
    ensures Apart(s, Next(s, step), step.p)
  {
    hide Inv, Apart, Next;
    if !step.Advance? {
      OtherApart(s, step);
    } else if Forking(s.pc[step.p]) {
      ForkApart(s, step);
    } else if Exiting(s.pc[step.p]) {
      ExitApart(s, step);
    } else {
      WaitApart(s, step);
    }
  }

  /** How wait_lock changes hands; other processes keep their place, except one that is freed. */
  ghost predicate LockMove(s: State, s': State, p: nat) {
    && Shape(s) && Shape(s') && p < |s.st| == |s'.st|
    && (forall k: nat | k < |s.st| && k != p && s'.pc[k] != s.pc[k] :: s'.pc[k] == Idle && !Holds(s.pc[k]))
    && s'.waitLock == (if Holds(s.pc[p]) == Holds(s'.pc[p]) then s.waitLock else if Holds(s'.pc[p]) then Some(p)
      else None)
    && (!Holds(s.pc[p]) && Holds(s'.pc[p]) ==> s.waitLock == None)
  }

  lemma MoveKeepsLock(s: State, s': State, p: nat)
    requires LockOk(s.pc, s.waitLock) && LockMove(s, s', p)
    ensures LockOk(s'.pc, s'.waitLock)
  {
    hide Holds;
    assert !Holds(Idle) by { NotHeld(); }
  }

  lemma NotHeld()
    ensures !Holds(Idle)
  {
  }

  lemma ForkMove(s: State, step: Step)
    requires Enabled(s, step) && Phases(s.st, s.pc) && Births(s.st, s.parent, s.pc, s.forker) && step.Advance?
    requires Forking(s.pc[step.p])
    ensures LockMove(s, Next(s, step), step.p)
  {
  }

  lemma ScanFork(s: State, step: Step)
    requires Enabled(s, step) && Phases(s.st, s.pc) && ScanOk(s.st, s.parent, s.pc, step.p) && step.Advance?
    requires Forking(s.pc[step.p])
    ensures var s' := Next(s, step); Shape(s') && |s'.st| == |s.st| && ScanOk(s'.st, s'.parent, s'.pc, step.p)
  {
  }

  lemma ExitMove(s: State, step: Step)
    requires Enabled(s, step) && Phases(s.st, s.pc) && Births(s.st, s.parent, s.pc, s.forker) && step.Advance?
    requires Exiting(s.pc[step.p])
    ensures LockMove(s, Next(s, step), step.p)
  {
    hide Births;
  }

  lemma ScanExit(s: State, step: Step)
    requires Enabled(s, step) && Phases(s.st, s.pc) && ScanOk(s.st, s.parent, s.pc, step.p) && step.Advance?
    requires Exiting(s.pc[step.p])
    ensures var s' := Next(s, step); Shape(s') && |s'.st| == |s.st| && ScanOk(s'.st, s'.parent, s'.pc, step.p)
  {
  }

  lemma WaitMove(s: State, step: Step)
    requires Enabled(s, step) && Phases(s.st, s.pc) && Births(s.st, s.parent, s.pc, s.forker) && step.Advance?
    requires InWait(s.pc[step.p]) && !Reaps(s, step)
    ensures LockMove(s, Next(s, step), step.p)
  {
    hide Births;
  }

  lemma ScanWait(s: State, step: Step)
    requires Enabled(s, step) && Phases(s.st, s.pc) && ScanOk(s.st, s.parent, s.pc, step.p) && step.Advance?
    requires InWait(s.pc[step.p]) && !s.pc[step.p].WaitScan?
    ensures var s' := Next(s, step); Shape(s') && |s'.st| == |s.st| && ScanOk(s'.st, s'.parent, s'.pc, step.p)
  {
  }

  lemma ScanOn(s: State, step: Step)
    requires Enabled(s, step) && ScanOk(s.st, s.parent, s.pc, step.p) && step.Advance? && s.pc[step.p].WaitScan?
    requires !Reaps(s, step)
    ensures var s' := Next(s, step); Shape(s') && |s'.st| == |s.st| && ScanOk(s'.st, s'.parent, s'.pc, step.p)
  {
    hide Freed;
  }

  lemma ReapMove(s: State, step: Step)
    requires Enabled(s, step) && Phases(s.st, s.pc) && Births(s.st, s.parent, s.pc, s.forker) && Reaps(s, step)
    ensures LockMove(s, Next(s, step), step.p)
  {
    hide Births;
  }

  lemma ScanReap(s: State, step: Step)
    requires Enabled(s, step) && Phases(s.st, s.pc) && ScanOk(s.st, s.parent, s.pc, step.p) && Reaps(s, step)
    ensures var s' := Next(s, step); Shape(s') && |s'.st| == |s.st| && ScanOk(s'.st, s'.parent, s'.pc, step.p)
  {
  }

  lemma OtherMove(s: State, step: Step)
    requires Enabled(s, step) && Phases(s.st, s.pc) && Births(s.st, s.parent, s.pc, s.forker) && !step.Advance?
    ensures LockMove(s, Next(s, step), step.p)
  {
  }

  lemma IdleScan(s: State, p: nat)
    requires Shape(s) && p < |s.st| && !Holds(s.pc[p])
    ensures ScanOk(s.st, s.parent, s.pc, p)
  {
  }

  /** While a process holds wait_lock, nobody else disturbs what it has scanned. */
  lemma OutsideScan(s: State, step: Step, q: nat)
    requires Inv(s) && Enabled(s, step) && q < |s.st| && q != step.p && LockMove(s, Next(s, step), step.p)
    ensures var s' := Next(s, step); Shape(s') && |s'.st| == |s.st| && ScanOk(s'.st, s'.parent, s'.pc, q)
  {
    hide Tree, Waiters, Pids, Births, Next, Phases;
    assert ScanOk(s.st, s.parent, s.pc, q);
    NotHeld();
    if Holds(s.pc[q]) && Next(s, step).pc[q] == s.pc[q] {
      Outside(s, step);
    } else {
      IdleScan(Next(s, step), q);
    }
  }

  /** Whether the process that holds wait_lock is about to wake init. */
  ghost predicate Poking(pc: seq<Pc>, waitLock: Option<nat>) {
    waitLock.Some? && waitLock.value < |pc| && pc[waitLock.value].ExitPoke?
  }

  /** No zombie k is left to a parent x that sleeps. */
  ghost predicate Served(s: State, x: nat, k: nat)
    requires Shape(s)
  {
    Waiting(s.st, s.pc, x) && k < |s.st| && s.parent[k] == Some(x) && s.st[k] == Zombie ==>
      x == INIT && Poking(s.pc, s.waitLock)
  }

  lemma ServedAll(s: State)
    requires Shape(s)
    ensures Waiters(s.st, s.parent, s.pc, s.waitLock) <==> forall x: nat, k: nat :: Served(s, x, k)
  {
    if Waiters(s.st, s.parent, s.pc, s.waitLock) {
      forall x: nat, k: nat ensures Served(s, x, k) {
        if Waiting(s.st, s.pc, x) && k < |s.st| && s.parent[k] == Some(x) && s.st[k] == Zombie {
          assert !NoZombies(s.st, s.parent, x, |s.st|);
        }
      }
    }
    if forall x: nat, k: nat :: Served(s, x, k) {
      forall x: nat | Waiting(s.st, s.pc, x) && !NoZombies(s.st, s.parent, x, |s.st|) ensures x == INIT
        && Poking(s.pc, s.waitLock) {
        var k: nat :| k < |s.st| && s.parent[k] == Some(x) && s.st[k] == Zombie;
        assert Served(s, x, k);
      }
    }
  }

  lemma OutsideServed(s: State, step: Step, x: nat, k: nat)
    requires Inv(s) && Enabled(s, step) && !(step.Advance? && Holds(s.pc[step.p])) && Served(s, x, k)
    requires Shape(Next(s, step))
    ensures Served(Next(s, step), x, k)
  {
    hide Tree, Pids, Births, Next, Scans, Waiters, Phases;
    Outside(s, step);
  }

  lemma ForkServed(s: State, step: Step, x: nat, k: nat)
    requires Enabled(s, step) && s.waitLock == Some(step.p) && ScanOk(s.st, s.parent, s.pc, step.p) && Served(s, x, k)
    requires Holds(s.pc[step.p]) && Phases(s.st, s.pc) && Births(s.st, s.parent, s.pc, s.forker) && Shape(Next(s, step))
    requires step.Advance? && Forking(s.pc[step.p])
    ensures Served(Next(s, step), x, k)
  {
  }

  lemma ExitServed(s: State, step: Step, x: nat, k: nat)
    requires Enabled(s, step) && s.waitLock == Some(step.p) && ScanOk(s.st, s.parent, s.pc, step.p) && Served(s, x, k)
    requires Holds(s.pc[step.p]) && Phases(s.st, s.pc) && Births(s.st, s.parent, s.pc, s.forker) && Shape(Next(s, step))
    requires step.Advance? && Exiting(s.pc[step.p])
    ensures Served(Next(s, step), x, k)
  {
    hide Births;
  }

  lemma WaitServed(s: State, step: Step, x: nat, k: nat)
    requires Enabled(s, step) && s.waitLock == Some(step.p) && ScanOk(s.st, s.parent, s.pc, step.p) && Served(s, x, k)
    requires Holds(s.pc[step.p]) && Phases(s.st, s.pc) && Births(s.st, s.parent, s.pc, s.forker) && Shape(Next(s, step))
    requires step.Advance? && InWait(s.pc[step.p]) && !Reaps(s, step)
    ensures Served(Next(s, step), x, k)
  {
    hide Births;
  }

  lemma ReapServed(s: State, step: Step, x: nat, k: nat)
    requires Enabled(s, step) && s.waitLock == Some(step.p) && ScanOk(s.st, s.parent, s.pc, step.p) && Served(s, x, k)
    requires Holds(s.pc[step.p]) && Phases(s.st, s.pc) && Births(s.st, s.parent, s.pc, s.forker) && Shape(Next(s, step))
    requires Reaps(s, step)
    ensures Served(Next(s, step), x, k)
  {
    hide Births;
  }

  lemma StepLife(s: State, step: Step)
    requires Inv(s) && Enabled(s, step)
    ensures var s' := Next(s, step);
            && Tree(s'.st, s'.parent) && Phases(s'.st, s'.pc) && Births(s'.st, s'.parent, s'.pc, s'.forker)
            && Pids(s'.st, s'.pid, s'.xstate, s'.nextpid, s'.exited, s'.reaped)
  {
    hide Tree, Phases, Births, Pids, Scans, Waiters, LockOk, Next, Light, SamePids;
    var pc := s.pc[step.p];
    if !Heavy(s, step) {
      if !step.Advance? {
        OtherLight(s, step);
      } else if Forking(pc) {
        ForkLight(s, step);
      } else if Exiting(pc) {
        ExitLight(s, step);
      } else if pc.WaitScan? {
        ScanLight(s, step);
      } else {
        WaitLight(s, step);
      }
      LightKeeps(s, Next(s, step), step.p);
      PidsKept(s, Next(s, step));
    } else if step.Fork? {
      ForkKeeps(s, step);
      ForkPids(s, step);
    } else if Adopts(s, step) {
      AdoptKeeps(s, step);
      PidsKept(s, Next(s, step));
    } else if Reaps(s, step) {
      ReapKeeps(s, step);
      ReapPids(s, step);
    } else if pc.ForkLink? {
      LinkKeeps(s, step);
      PidsKept(s, Next(s, step));
    } else if pc.ForkRun? {
      LaunchKeeps(s, step);
      PidsKept(s, Next(s, step));
    } else if pc.ExitZombie? {
      DieKeeps(s, step);
      DiePids(s, step);
    } else {
      UnforkKeeps(s, step);
      UnforkPids(s, step);
    }
  }

  lemma StepMove(s: State, step: Step)
    requires Inv(s) && Enabled(s, step)
    ensures LockMove(s, Next(s, step), step.p)
    ensures ScanOk(s.st, s.parent, s.pc, step.p)
  {
    hide Tree, Phases, Births, Pids, Waiters, LockOk, Next, LockMove;
    var pc := s.pc[step.p];
    if !step.Advance? {
      OtherMove(s, step);
    } else if Forking(pc) {
      ForkMove(s, step);
    } else if Exiting(pc) {
      ExitMove(s, step);
    } else if Reaps(s, step) {
      ReapMove(s, step);
    } else {
      WaitMove(s, step);
    }
  }

  lemma StepScans(s: State, step: Step)
    requires Inv(s) && Enabled(s, step) && LockMove(s, Next(s, step), step.p) && ScanOk(s.st, s.parent, s.pc, step.p)
    ensures var s' := Next(s, step); Scans(s'.st, s'.parent, s'.pc)
  {
    hide Tree, Phases, Births, Pids, Waiters, LockOk, Next, ScanOk;
    var pc := s.pc[step.p];
    if !step.Advance? {
      Unscanned(s, step);
      IdleScan(Next(s, step), step.p);
    } else if Forking(pc) {
      ScanFork(s, step);
    } else if Exiting(pc) {
      ScanExit(s, step);
    } else if Reaps(s, step) {
      ScanReap(s, step);
    } else if pc.WaitScan? {
      ScanOn(s, step);
    } else {
      ScanWait(s, step);
    }
    forall q: nat | q < |s.st| ensures ScanOk(Next(s, step).st, Next(s, step).parent, Next(s, step).pc, q) {
      if q != step.p {
        OutsideScan(s, step, q);
      }
    }
  }

  lemma Unscanned(s: State, step: Step)
    requires Enabled(s, step) && Phases(s.st, s.pc) && !step.Advance?
    ensures Shape(Next(s, step)) && |Next(s, step).st| == |s.st| && !Holds(Next(s, step).pc[step.p])
  {
  }

  lemma StepServed(s: State, step: Step, x: nat, k: nat)
    requires Inv(s) && Enabled(s, step) && LockMove(s, Next(s, step), step.p) && ScanOk(s.st, s.parent, s.pc, step.p)
    requires Served(s, x, k)
    ensures Served(Next(s, step), x, k)
  {
    hide Tree, Phases, Births, Pids, Waiters, Next, ScanOk, Served;
    var pc := s.pc[step.p];
    if !step.Advance? || !Holds(pc) {
      OutsideServed(s, step, x, k);
    } else if Forking(pc) {
      ForkServed(s, step, x, k);
    } else if Exiting(pc) {
      ExitServed(s, step, x, k);
    } else if Reaps(s, step) {
      ReapServed(s, step, x, k);
    } else {
      WaitServed(s, step, x, k);
    }
  }

  /** Every step keeps the invariant. */
  lemma StepKeeps(s: State, step: Step)
    requires Inv(s) && Enabled(s, step)
    ensures Inv(Next(s, step))
  {
    hide Tree, Phases, Births, Pids, Waiters, LockOk, Scans, Next, Enabled, ScanOk, Served;
    StepLife(s, step);
    StepMove(s, step);
    MoveKeepsLock(s, Next(s, step), step.p);
    StepScans(s, step);
    ServedAll(s);
    forall x: nat, k: nat ensures Served(Next(s, step), x, k) {
      StepServed(s, step, x, k);
    }
    ServedAll(Next(s, step));
  }

  // ---------------------------------------------------------------------
  // Whole runs

  /** Only init exists, as userinit leaves it. */
  ghost predicate Init(s: State) {
    && Shape(s) && s.st[INIT] == Runnable && s.pid[INIT] == 1 && s.nextpid == 2
    && (forall k: nat | k < |s.st| :: s.parent[k] == None && s.pc[k] == Idle && (k != INIT ==> s.st[k] == Unused))
    && s.waitLock == None && s.exited == map[] && s.reaped == map[]
  }

  lemma InitInv(s: State)
    requires Init(s)
    ensures Inv(s)
  {
  }

  ghost predicate IsRun(s: State, steps: seq<Step>)
    decreases |steps|
  {
    steps == [] || (Enabled(s, steps[0]) && IsRun(Next(s, steps[0]), steps[1..]))
  }

  ghost function After(s: State, steps: seq<Step>): State
    requires IsRun(s, steps)
    decreases |steps|
  {
    if steps == [] then s else After(Next(s, steps[0]), steps[1..])
  }

  lemma {:induction false} RunKeeps(s: State, steps: seq<Step>)
    requires Inv(s) && IsRun(s, steps)
    ensures Inv(After(s, steps))
    decreases |steps|
  {
    hide Inv, Enabled, Next;
    if steps != [] {
      StepKeeps(s, steps[0]);
      RunKeeps(Next(s, steps[0]), steps[1..]);
    }
  }

  /** In every run, whoever lives or has exited, init aside, has a parent that lives. */
  lemma LivingParent(s: State, steps: seq<Step>, k: nat)
    requires Init(s) && IsRun(s, steps)
    requires var t := After(s, steps); k < |t.st| && k != INIT && (Alive(t.st[k]) || t.st[k] == Zombie)
    ensures var t := After(s, steps);
            && |t.parent| == |t.st| && t.parent[k].Some? && t.parent[k].value < |t.st|
            && t.st[t.parent[k].value] != Zombie && t.st[t.parent[k].value] != Unused && t.st[t.parent[k].value] != Used
  {
    hide IsRun, After;
    InitInv(s);
    RunKeeps(s, steps);
  }

  /**
    A step reaps at most one child: its pid has exited and was never reaped before, the
    reaper is its parent at that moment, and it gets the pid and status the child exited with.
   */
  lemma ReapedOnce(s: State, step: Step, pid: nat)
    requires Inv(s) && Enabled(s, step) && pid in Next(s, step).reaped
    requires (pid !in s.reaped || Next(s, step).reaped[pid] != s.reaped[pid])
    ensures pid !in s.reaped && pid in s.exited
    ensures Reaps(s, step) && s.pid[s.pc[step.p].k] == pid && s.parent[s.pc[step.p].k] == Some(step.p)
    ensures Next(s, step).reaped[pid] == (s.pid[step.p], s.exited[pid])
    ensures forall i | i != pid :: i in Next(s, step).reaped <==> i in s.reaped
  {
    hide Tree, Births, Scans, Waiters, LockOk, Phases;
    if !Reaps(s, step) {
      NothingReaped(s, step);
    }
  }

  lemma NothingReaped(s: State, step: Step)
    requires Enabled(s, step) && !Reaps(s, step)
    ensures Next(s, step).reaped == s.reaped
  {
  }

  // ---------------------------------------------------------------------
  // Exit status, from the call of exit to the return of wait

  /** Somewhere in the run the process with this pid calls exit with this status. */
  ghost predicate Called(s: State, steps: seq<Step>, pid: nat, status: int)
    requires IsRun(s, steps)
    decreases |steps|
  {
    steps != [] && (Calls(s, steps[0], pid, status) || Called(Next(s, steps[0]), steps[1..], pid, status))
  }

  ghost predicate Calls(s: State, step: Step, pid: nat, status: int) {
    step.Exit? && step.p < |s.pid| && s.pid[step.p] == pid && step.status == status
  }

  /** The calls of exit up to here. */
  ghost function Record(calls: map<nat, int>, s: State, step: Step): map<nat, int> {
    if step.Exit? && step.p < |s.pid| then calls[s.pid[step.p] := step.status] else calls
  }

  ghost function Recorded(s: State, steps: seq<Step>, calls: map<nat, int>): map<nat, int>
    requires IsRun(s, steps)
    decreases |steps|
  {
    if steps == [] then calls else Recorded(Next(s, steps[0]), steps[1..], Record(calls, s, steps[0]))
  }

  /**
    Exactly the processes that are exiting or have exited have called exit; the status on its
    way, stored and handed out is the one of that call.
   */
  ghost predicate Told(s: State, calls: map<nat, int>) {
    && Shape(s)
    && (forall p: nat {:trigger s.pc[p]} | p < |s.pc| && Exiting(s.pc[p]) ::
          s.pid[p] in calls && calls[s.pid[p]] == s.pc[p].status)
    && (forall p: nat {:trigger s.pc[p]} | p < |s.pc| && s.st[p] != Unused && !Exiting(s.pc[p]) && s.pc[p] != Dead ::
          s.pid[p] !in calls)
    && (forall i | i in s.exited :: i in calls && calls[i] == s.exited[i])
    && (forall i | i in calls :: i < s.nextpid)
  }

  /** For exit, process q has not moved, is free, or has just got a pid that called nothing. */
  ghost predicate SameTale(s: State, s': State, calls: map<nat, int>, q: nat)
    requires Shape(s) && Shape(s') && q < |s.st| == |s'.st|
  {
    || s'.st[q] == Unused
    || (!Exiting(s'.pc[q]) && s'.pid[q] !in calls)
    || (&& s'.pid[q] == s.pid[q] && s.st[q] != Unused && (s'.pc[q] == Dead <==> s.pc[q] == Dead)
        && (Exiting(s'.pc[q]) <==> Exiting(s.pc[q])) && (Exiting(s.pc[q]) ==> s'.pc[q].status == s.pc[q].status))
  }

  lemma TaleKept(s: State, s': State, calls: map<nat, int>)
    requires Told(s, calls) && SameTales(s, s', calls) && Phases(s'.st, s'.pc)
    ensures Told(s', calls)
  {
    hide Holds;
    forall p: nat | p < |s'.pc| && Exiting(s'.pc[p]) ensures s'.pid[p] in calls && calls[s'.pid[p]] == s'.pc[p].status {
      assert SameTale(s, s', calls, p) && PhaseOk(s'.st[p], s'.pc[p]) && s.pc[p] == s.pc[p];
    }
    forall p: nat | p < |s'.pc| && s'.st[p] != Unused && !Exiting(s'.pc[p]) && s'.pc[p] != Dead
      ensures s'.pid[p] !in calls
    {
      assert SameTale(s, s', calls, p) && s.pc[p] == s.pc[p];
    }
  }

  /** The same for every process, and the other books of exit are as before. */
  ghost predicate SameTales(s: State, s': State, calls: map<nat, int>) {
    && Shape(s) && Shape(s') && |s'.st| == |s.st| && s'.exited == s.exited && s'.nextpid >= s.nextpid
    && forall q: nat | q < |s.st| :: SameTale(s, s', calls, q)
  }

  lemma ForkTale(s: State, p: nat, fail: bool, calls: map<nat, int>)
    requires Told(s, calls) && p < |s.st| && s.st[p] == Running && Forking(s.pc[p])
    requires Births(s.st, s.parent, s.pc, s.forker)
    requires Phases(s.st, s.pc)
    ensures SameTales(s, ForkStatement(s, p, fail), calls)
  {
    hide Holds, PhaseOk, ForkStatement;
    assert s.pc[p].np < |s.st| && s.st[s.pc[p].np] == Used;
    var freed := ForkEffect(s, p, fail);
    var s' := ForkStatement(s, p, fail);
    forall q: nat | q < |s.st| ensures SameTale(s, s', calls, q) {
      if q == p {
        assert s.pc[p] == s.pc[p];
      } else {
        Unborn(s, q);
      }
    }
  }

  lemma ForkEffect(s: State, p: nat, fail: bool) returns (freed: bool)
    requires Shape(s) && p < |s.st| && Forking(s.pc[p]) && s.pc[p].np < |s.st| && s.pc[p].np != p
    ensures var s' := ForkStatement(s, p, fail); var np := s.pc[p].np;
            && Shape(s') && |s'.st| == |s.st| && s'.exited == s.exited && s'.nextpid == s.nextpid
            && s'.st == (if freed then s.st[np := Unused] else if s.pc[p].ForkRun? then s.st[np := Runnable] else s.st)
            && s'.pid == (if freed then s.pid[np := 0] else s.pid)
            && s'.pc == (if freed then s.pc[np := Idle] else s.pc)[p := s'.pc[p]]
            && !Exiting(s'.pc[p]) && s'.pc[p] != Dead
  {
    hide Holds;
    freed := s.pc[p].ForkCopy? && fail;
    if freed {
      assert ForkStatement(s, p, fail).pc == s.pc[s.pc[p].np := Idle][p := Idle];
    }
  }

  lemma ScanTale(s: State, p: nat, fail: bool, calls: map<nat, int>)
    requires Told(s, calls) && p < |s.st| && s.st[p] == Running && s.pc[p].WaitScan? && Phases(s.st, s.pc)
    ensures SameTales(s, WaitStatement(s, p, fail), calls)
  {
    hide Holds, PhaseOk, WaitStatement;
    var reaps := ScanEffect(s, p, fail);
    var s' := WaitStatement(s, p, fail);
    forall q: nat | q < |s.st| ensures SameTale(s, s', calls, q) {
      if q == p {
        assert s.pc[p] == s.pc[p];
      } else {
        Unborn(s, q);
      }
    }
  }

  lemma ScanEffect(s: State, p: nat, fail: bool) returns (reaps: bool)
    requires Shape(s) && p < |s.st| && s.pc[p].WaitScan?
    ensures var s' := WaitStatement(s, p, fail); var k := s.pc[p].k;
            && Shape(s') && |s'.st| == |s.st| && s'.exited == s.exited && s'.nextpid == s.nextpid
              && (reaps ==> k < |s.st| && s.st[k] == Zombie)
            && s'.st == (if reaps then s.st[k := Unused] else s.st)
              && s'.pid == (if reaps then s.pid[k := 0] else s.pid)
            && s'.pc == (if reaps then s.pc[k := Idle] else s.pc)[p := s'.pc[p]] && !Exiting(s'.pc[p])
              && s'.pc[p] != Dead
  {
    hide Holds;
    var k := s.pc[p].k;
    reaps := k < |s.st| && s.parent[k] == Some(p) && s.st[k] == Zombie && !fail;
    if reaps {
      assert WaitStatement(s, p, fail).pc == s.pc[k := Idle][p := Idle];
    }
  }

  lemma Unborn(s: State, q: nat)
    requires Shape(s) && Phases(s.st, s.pc) && q < |s.st|
    ensures s.st[q] == Unused ==> !Exiting(s.pc[q]) && s.pc[q] != Dead
  {
    assert PhaseOk(s.st[q], s.pc[q]);
  }

  lemma WaitTale(s: State, p: nat, fail: bool, calls: map<nat, int>)
    requires Told(s, calls) && p < |s.st| && s.st[p] == Running && InWait(s.pc[p]) && !s.pc[p].WaitScan?
    requires Phases(s.st, s.pc)
    ensures SameTales(s, WaitStatement(s, p, fail), calls)
  {
    hide Holds, PhaseOk, WaitStatement;
    WaitEffect(s, p, fail);
    var s' := WaitStatement(s, p, fail);
    forall q: nat | q < |s.st| ensures SameTale(s, s', calls, q) {
      if q == p {
        assert s.pc[p] == s.pc[p];
      } else {
        Unborn(s, q);
      }
    }
  }

  lemma WaitEffect(s: State, p: nat, fail: bool)
    requires Shape(s) && p < |s.st| && s.st[p] == Running && InWait(s.pc[p]) && !s.pc[p].WaitScan?
    ensures var s' := WaitStatement(s, p, fail);
            && Shape(s') && s'.exited == s.exited && s'.nextpid == s.nextpid && s'.pid == s.pid
            && s'.pc == s.pc[p := s'.pc[p]] && s'.st == s.st[p := s'.st[p]] && Alive(s'.st[p])
            && !Exiting(s'.pc[p]) && s'.pc[p] != Dead
  {
    hide Holds, Freed;
  }

  lemma ExitTale(s: State, p: nat, calls: map<nat, int>)
    requires Told(s, calls) && p < |s.st| && s.st[p] == Running && Exiting(s.pc[p]) && !s.pc[p].ExitZombie?
    requires Phases(s.st, s.pc)
    ensures SameTales(s, ExitStatement(s, p), calls)
  {
    hide Holds;
    forall q: nat | q < |s.st| ensures SameTale(s, ExitStatement(s, p), calls, q) {
      assert PhaseOk(s.st[q], s.pc[q]);
    }
  }

  lemma OtherTale(s: State, step: Step, calls: map<nat, int>)
    requires Told(s, calls) && Enabled(s, step) && Phases(s.st, s.pc) && !step.Exit? && !step.Advance?
    ensures SameTales(s, Next(s, step), calls)
  {
    hide Holds;
    forall q: nat | q < |s.st| ensures SameTale(s, Next(s, step), calls, q) {
      assert PhaseOk(s.st[q], s.pc[q]);
    }
  }

  /** exit itself adds the call to the record, and its last statement the status to `exited`. */
  lemma ExitTold(s: State, step: Step, calls: map<nat, int>)
    requires Inv(s) && Enabled(s, step) && Told(s, calls) && (step.Exit? || (step.Advance? && s.pc[step.p].ExitZombie?))
    ensures Told(Next(s, step), Record(calls, s, step))
  {
    hide Tree, Births, Scans, Waiters, LockOk, ForkStatement, WaitStatement, Freed, Holds;
    var s', calls' := Next(s, step), Record(calls, s, step);
    assert PhaseOk(s.st[step.p], s.pc[step.p]) && s.pid[step.p] == s.pid[step.p];
    forall p: nat | p < |s'.pc| && Exiting(s'.pc[p]) ensures s'.pid[p] in calls'
      && calls'[s'.pid[p]] == s'.pc[p].status {
      assert PhaseOk(s.st[p], s.pc[p]);
    }
    forall p: nat | p < |s'.pc| && s'.st[p] != Unused && !Exiting(s'.pc[p])
      && s'.pc[p] != Dead ensures s'.pid[p] !in calls' {
      assert PhaseOk(s.st[p], s.pc[p]);
    }
  }

  lemma StepTold(s: State, step: Step, calls: map<nat, int>)
    requires Inv(s) && Enabled(s, step) && Told(s, calls)
    ensures Told(Next(s, step), Record(calls, s, step))
  {
    hide Tree, Births, Scans, Waiters, LockOk, Pids, Told, SameTales, ForkStatement, ExitStatement, WaitStatement;
    StepPhases(s, step);
    if step.Exit? || (step.Advance? && s.pc[step.p].ExitZombie?) {
      ExitTold(s, step, calls);
      return;
    } else if !step.Advance? {
      OtherTale(s, step, calls);
    } else if Forking(s.pc[step.p]) {
      ForkTale(s, step.p, step.fail, calls);
    } else if Exiting(s.pc[step.p]) {
      ExitTale(s, step.p, calls);
    } else if s.pc[step.p].WaitScan? {
      ScanTale(s, step.p, step.fail, calls);
    } else {
      WaitTale(s, step.p, step.fail, calls);
    }
    TaleKept(s, Next(s, step), calls);
  }

  lemma StepPhases(s: State, step: Step)
    requires Inv(s) && Enabled(s, step)
    ensures Shape(s) && Phases(Next(s, step).st, Next(s, step).pc)
  {
    StepKeeps(s, step);
  }

  lemma {:induction false} RunTold(s: State, steps: seq<Step>, calls: map<nat, int>)
    requires Inv(s) && IsRun(s, steps) && Told(s, calls)
    ensures Told(After(s, steps), Recorded(s, steps, calls))
    decreases |steps|
  {
    hide Inv, Enabled, Next, Told, Record;
    if steps != [] {
      StepKeeps(s, steps[0]);
      StepTold(s, steps[0], calls);
      RunTold(Next(s, steps[0]), steps[1..], Record(calls, s, steps[0]));
    }
  }

  /** A pid calls exit at most once, and the record holds exactly these calls. */
  lemma {:induction false} RecordedCalls(s: State, steps: seq<Step>, calls: map<nat, int>, pid: nat, status: int)
    requires Inv(s) && IsRun(s, steps) && Told(s, calls)
    ensures (pid in Recorded(s, steps, calls) && Recorded(s, steps, calls)[pid] == status)
       <==> (pid in calls && calls[pid] == status) || Called(s, steps, pid, status)
    ensures pid in calls ==> pid in Recorded(s, steps, calls) && Recorded(s, steps, calls)[pid] == calls[pid]
    decreases |steps|
  {
    hide Inv, Next, Told, Enabled;
    if steps != [] {
      StepKeeps(s, steps[0]);
      StepTold(s, steps[0], calls);
      NotYetCalled(s, steps[0], calls);
      RecordedCalls(Next(s, steps[0]), steps[1..], Record(calls, s, steps[0]), pid, status);
    }
  }

  lemma NotYetCalled(s: State, step: Step, calls: map<nat, int>)
    requires Inv(s) && Enabled(s, step) && Told(s, calls)
    ensures step.Exit? ==> step.p < |s.pid| && s.pid[step.p] !in calls
  {
    hide Tree, Births, Scans, Waiters, LockOk, Pids;
  }

  /**
    In every run: the status that wait hands out with a pid is the one with which the process
    of that pid called exit, and it called exit with no other.
   */
  lemma StatusOfExit(s: State, steps: seq<Step>, pid: nat, status: int)
    requires Init(s) && IsRun(s, steps) && pid in After(s, steps).reaped
    ensures Called(s, steps, pid, status) <==> After(s, steps).reaped[pid].1 == status
  {
    hide IsRun, After, Called, Recorded;
    InitInv(s);
    InitTold(s);
    RunKeeps(s, steps);
    RunTold(s, steps, map[]);
    RecordedCalls(s, steps, map[], pid, status);
  }

  lemma InitTold(s: State)
    requires Init(s)
    ensures Told(s, map[])
  {
  }

  // ---------------------------------------------------------------------
  // What fork leaves behind, and progress

  /** A fork that ends has made a runnable child of the caller, whose pid nobody had before. */
  lemma ForkEnds(s: State, p: nat, fail: bool)
    requires Inv(s) && Enabled(s, Advance(p, fail)) && s.pc[p].ForkRun?
    ensures var s' := Next(s, Advance(p, fail)); var np := s.pc[p].np;
            && s'.pc[p] == Idle && np < |s.st| && s.st[np] == Used && s'.st[np] == Runnable && s'.parent[np] == Some(p)
  {
    hide Tree, Scans, Waiters, LockOk, Pids;
  }

  /**
    Nobody waits for wait_lock forever by its fault: whoever is inside a call can take its
    next statement, or the lock is held by a process that can.
   */
  lemma NoLockDeadlock(s: State, p: nat, fail: bool)
    requires Inv(s) && p < |s.st| && s.st[p] == Running && s.pc[p] != Idle
    ensures Enabled(s, Advance(p, fail))
         || (s.waitLock.Some? && s.waitLock.value != p && s.waitLock.value < |s.st|
           && Enabled(s, Advance(s.waitLock.value, fail)))
  {
    hide Tree, Scans, Waiters, Pids;
    assert PhaseOk(s.st[p], s.pc[p]);
    if s.waitLock.Some? {
      assert PhaseOk(s.st[s.waitLock.value], s.pc[s.waitLock.value]);
    }
  }

  /** What has been reaped stays so for the rest of the run. */
  lemma {:induction false} ReapedForever(s: State, steps: seq<Step>, pid: nat)
    requires Inv(s) && IsRun(s, steps) && pid in s.reaped
    ensures pid in After(s, steps).reaped && After(s, steps).reaped[pid] == s.reaped[pid]
    decreases |steps|
  {
    hide Inv, Enabled, Next;
    if steps != [] {
      StepKeeps(s, steps[0]);
      ReapedStays(s, steps[0], pid);
      ReapedForever(Next(s, steps[0]), steps[1..], pid);
    }
  }

  lemma ReapedStays(s: State, step: Step, pid: nat)
    requires Inv(s) && Enabled(s, step) && pid in s.reaped
    ensures pid in Next(s, step).reaped && Next(s, step).reaped[pid] == s.reaped[pid]
  {
    hide Tree, Births, Scans, Waiters, LockOk;
  }

  /** Nobody sleeps in wait while it has a zombie child and wait_lock is free. */
  lemma NoForgottenZombie(s: State, steps: seq<Step>, p: nat, k: nat)
    requires Init(s) && IsRun(s, steps)
    requires var t := After(s, steps);
             && t.waitLock == None && k < |t.st| && k < |t.parent| && t.parent[k] == Some(p) && t.st[k] == Zombie
    ensures !Waiting(After(s, steps).st, After(s, steps).pc, p)
  {
    hide IsRun, After;
    InitInv(s);
    RunKeeps(s, steps);
    var t := After(s, steps);
    assert !NoZombies(t.st, t.parent, p, |t.st|);
  }

  /** wait gives up without having been killed only when the caller has no child. */
  lemma GivesUp(s: State, p: nat)
    requires Inv(s) && Enabled(s, Advance(p, false)) && s.pc[p].WaitDecide? && Next(s, Advance(p, false)).pc[p] == Idle
    ensures Childless(s.parent, p, |s.st|)
  {
    assert ScanOk(s.st, s.parent, s.pc, p);
  }
}
