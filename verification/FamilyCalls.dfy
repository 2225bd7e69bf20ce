/**
  fork, exit and wait (kernel/proc.c) as whole calls: what the statements of module Family add up
  to when the caller runs through, and that no slot of the process table is lost.
 */
module FamilyCalls {
  import opened Prelude
  import opened Family

  /** The caller takes its statements one after the other and nothing fails. */
  ghost predicate Through(steps: seq<Step>, p: nat) { forall i | 0 <= i < |steps| :: steps[i] == Advance(p, false) }

  /** s becomes t when p runs on. */
  ghost predicate Leads(s: State, p: nat, t: State) {
    exists steps :: Through(steps, p) && IsRun(s, steps) && After(s, steps) == t
  }

  lemma Stays(s: State, p: nat)
    ensures Leads(s, p, s)
  {
    assert Through([], p) && IsRun(s, []) && After(s, []) == s;
  }

  lemma StepLeads(s: State, p: nat, t: State)
    requires Enabled(s, Advance(p, false)) && Leads(Next(s, Advance(p, false)), p, t)
    ensures Leads(s, p, t)
  {
    hide Next, Enabled;
    var rest :| Through(rest, p) && IsRun(Next(s, Advance(p, false)), rest)
                && After(Next(s, Advance(p, false)), rest) == t;
    var steps := [Advance(p, false)] + rest;
    assert steps[1..] == rest && Through(steps, p);
  }

  /** The first zombie child from k on, or |st|. */
  function FirstZombie(st: seq<RunState>, parent: seq<Option<nat>>, p: nat, k: nat): (z: nat)
    requires |parent| == |st| && k <= |st|
    ensures k <= z <= |st| && (z < |st| ==> parent[z] == Some(p) && st[z] == Zombie)
    ensures forall j: nat | k <= j < z && parent[j] == Some(p) :: st[j] != Zombie
    decreases |st| - k
  {
    if k == |st| || (parent[k] == Some(p) && st[k] == Zombie) then k else FirstZombie(st, parent, p, k + 1)
  }

  ghost predicate ChildFrom(parent: seq<Option<nat>>, p: nat, k: nat) {
    exists j: nat :: k <= j < |parent| && parent[j] == Some(p)
  }

  /** How the scan of wait ends from process k on. */
  ghost function WaitEnd(s: State, p: nat, k: nat, kids: bool): State
    requires Shape(s) && p < |s.st| && k <= |s.st|
  {
    var z := FirstZombie(s.st, s.parent, p, k);
    if z < |s.st| then
      Goto(Freed(s, z), p, Idle).(waitLock := None, reaped := s.reaped[s.pid[z] := (s.pid[p], s.xstate[z])])
    else if kids || ChildFrom(s.parent, p, k) then Goto(s, p, Asleep).(st := s.st[p := Sleeping], waitLock := None)
    else Goto(s, p, Idle).(waitLock := None)
  }

  /** The caller is scanning the table in wait. */
  ghost predicate Scanning(s: State, p: nat, k: nat, kids: bool) {
    && Shape(s) && p < |s.st| && s.st[p] == Running && s.waitLock == Some(p) && k <= |s.st|
    && s.pc[p] == WaitScan(k, kids)
  }

  lemma WaitPasses(s: State, p: nat, k: nat, kids: bool)
    requires Scanning(s, p, k, kids) && k < |s.st| && !(s.parent[k] == Some(p) && s.st[k] == Zombie)
    ensures var more := kids || s.parent[k] == Some(p); var s' := Goto(s, p, WaitScan(k + 1, more));
            Enabled(s, Advance(p, false)) && Next(s, Advance(p, false)) == s' && Scanning(s', p, k + 1, more)
  {
    hide Freed;
  }

  lemma PassedEnd(s: State, p: nat, k: nat, kids: bool)
    requires Scanning(s, p, k, kids) && k < |s.st| && !(s.parent[k] == Some(p) && s.st[k] == Zombie)
    ensures var more := kids || s.parent[k] == Some(p);
            WaitEnd(Goto(s, p, WaitScan(k + 1, more)), p, k + 1, more) == WaitEnd(s, p, k, kids)
  {
    hide Freed;
    var more := kids || s.parent[k] == Some(p);
    assert more || ChildFrom(s.parent, p, k + 1) <==> kids || ChildFrom(s.parent, p, k);
    EndSame(s, p, WaitScan(k + 1, more), FirstZombie(s.st, s.parent, p, k));
  }

  /** The end does not depend on where the caller was. */
  lemma EndSame(s: State, p: nat, at: Pc, z: nat)
    requires Shape(s) && p < |s.st| && z <= |s.st|
    ensures var s' := Goto(s, p, at);
            && Goto(s', p, Asleep) == Goto(s, p, Asleep) && Goto(s', p, Idle) == Goto(s, p, Idle)
            && (z < |s.st| ==> Goto(Freed(s', z), p, Idle) == Goto(Freed(s, z), p, Idle))
  {
    if z < |s.st| {
      assert Goto(Freed(Goto(s, p, at), z), p, Idle).pc == Goto(Freed(s, z), p, Idle).pc;
    }
  }

  lemma WaitStops(s: State, p: nat, kids: bool)
    requires Scanning(s, p, |s.st|, kids)
    ensures Leads(s, p, WaitEnd(s, p, |s.st|, kids))
  {
    var s' := Goto(s, p, WaitDecide(kids));
    assert Next(s, Advance(p, false)) == s';
    EndSame(s, p, WaitDecide(kids), |s.st|);
    var t := Next(s', Advance(p, false));
    assert t == WaitEnd(s, p, |s.st|, kids);
    Stays(t, p);
    StepLeads(s', p, t);
    StepLeads(s, p, t);
  }

  lemma WaitFinds(s: State, p: nat, k: nat, kids: bool)
    requires Scanning(s, p, k, kids) && k < |s.st| && s.parent[k] == Some(p) && s.st[k] == Zombie
    ensures Leads(s, p, WaitEnd(s, p, k, kids))
  {
    var t := Next(s, Advance(p, false));
    assert t == WaitEnd(s, p, k, kids);
    Stays(t, p);
    StepLeads(s, p, t);
  }

  lemma {:induction false} WaitScans(s: State, p: nat, k: nat, kids: bool)
    requires Scanning(s, p, k, kids)
    ensures Leads(s, p, WaitEnd(s, p, k, kids))
    decreases |s.st| - k
  {
    hide Leads, WaitEnd, Next, Enabled;
    if k == |s.st| {
      WaitStops(s, p, kids);
    } else if s.parent[k] == Some(p) && s.st[k] == Zombie {
      WaitFinds(s, p, k, kids);
    } else {
      WaitPasses(s, p, k, kids);
      PassedEnd(s, p, k, kids);
      var more := kids || s.parent[k] == Some(p);
      WaitScans(Goto(s, p, WaitScan(k + 1, more)), p, k + 1, more);
      StepLeads(s, p, WaitEnd(s, p, k, kids));
    }
  }

  /**
    A whole call of wait: it frees the first zombie child and gives its pid and status, or
    returns at once without children, or sleeps.
   */
  lemma WaitAlone(s: State, p: nat)
    requires Shape(s) && p < |s.st| && s.st[p] == Running && s.waitLock == None
    requires (s.pc[p] == Idle || s.pc[p] == Asleep)
    ensures var start := if s.pc[p] == Idle then Next(s, Wait(p)) else s; var z := FirstZombie(s.st, s.parent, p, 0);
            && (s.pc[p] == Idle ==> Enabled(s, Wait(p)))
            && Leads(start, p,
                     if z < |s.st| then
                       Goto(Freed(s, z), p, Idle).(reaped := s.reaped[s.pid[z] := (s.pid[p], s.xstate[z])])
                     else if ChildFrom(s.parent, p, 0) then Goto(s, p, Asleep).(st := s.st[p := Sleeping])
                     else Goto(s, p, Idle))
  {
    hide Leads, Freed;
    var start := if s.pc[p] == Idle then Next(s, Wait(p)) else s;
    var s' := Goto(s, p, WaitScan(0, false)).(waitLock := Some(p));
    assert Next(start, Advance(p, false)) == s';
    WaitScans(s', p, 0, false);
    EndSame(s, p, WaitScan(0, false), FirstZombie(s.st, s.parent, p, 0));
    FreedLock(s', FirstZombie(s.st, s.parent, p, 0));
    StepLeads(start, p, WaitEnd(s', p, 0, false));
  }

  lemma FreedLock(s: State, z: nat)
    requires Shape(s) && z <= |s.st|
    ensures z < |s.st| ==> Freed(s, z).(waitLock := None) == Freed(s.(waitLock := None), z)
  {
  }

  // ---------------------------------------------------------------------
  // exit

  /** The children of p from k on are init's. */
  function Adopted(parent: seq<Option<nat>>, p: nat, k: nat): (r: seq<Option<nat>>)
    ensures |r| == |parent|
  {
    seq(|parent|, j requires 0 <= j < |parent| => if k <= j && parent[j] == Some(p) then Some(INIT) else parent[j])
  }

  /** How exit ends when it has looked at the processes before k. */
  ghost function ExitEnd(s: State, p: nat, status: int, k: nat): State
    requires Shape(s) && p < |s.st|
  {
    var parent := Adopted(s.parent, p, k);
    var st := if ChildFrom(s.parent, p, k) then Woken(s.st, s.pc, INIT) else s.st;
    var st' := if parent[p].Some? then Woken(st, s.pc, parent[p].value) else st;
    Goto(s, p, Dead).(st := st'[p := Zombie], parent := parent, xstate := s.xstate[p := status], waitLock := None,
                      exited := s.exited[s.pid[p] := status])
  }

  ghost predicate Leaving(s: State, p: nat, status: int, k: nat) {
    && Shape(s) && p < |s.st| && s.st[p] == Running && s.waitLock == Some(p) && k <= |s.st|
    && s.pc[p] == ExitScan(status, k)
  }

  lemma WokenFacts(st: seq<RunState>, pc: seq<Pc>, p: nat, at: Pc, q: nat)
    requires |pc| == |st| && p < |st| && st[p] == Running
    ensures Woken(st, pc[p := at], q) == Woken(st, pc, q) && Woken(Woken(st, pc, q), pc, q) == Woken(st, pc, q)
    ensures |Woken(st, pc, q)| == |st| && Woken(st, pc, q)[p] == Running
  {
  }

  lemma ExitPasses(s: State, p: nat, status: int, k: nat)
    requires Leaving(s, p, status, k) && k < |s.st| && s.parent[k] != Some(p)
    ensures var s' := Goto(s, p, ExitScan(status, k + 1));
            Enabled(s, Advance(p, false)) && Next(s, Advance(p, false)) == s' && Leaving(s', p, status, k + 1)
  {
    hide Woken;
  }

  lemma ExitPassedEnd(s: State, p: nat, status: int, k: nat)
    requires Leaving(s, p, status, k) && k < |s.st| && s.parent[k] != Some(p)
    ensures ExitEnd(Goto(s, p, ExitScan(status, k + 1)), p, status, k + 1) == ExitEnd(s, p, status, k)
  {
    hide Woken;
    var s' := Goto(s, p, ExitScan(status, k + 1));
    assert Adopted(s.parent, p, k + 1) == Adopted(s.parent, p, k);
    assert ChildFrom(s.parent, p, k + 1) <==> ChildFrom(s.parent, p, k);
    EndSt(s, p, s'.pc[p], k);
    assert Goto(s', p, Dead).pc == Goto(s, p, Dead).pc;
  }

  /** The states at the end of exit do not depend on where the caller was. */
  lemma EndSt(s: State, p: nat, at: Pc, k: nat)
    requires Shape(s) && p < |s.st| && s.st[p] == Running
    ensures var st := if ChildFrom(s.parent, p, k) then Woken(s.st, s.pc, INIT) else s.st; var pc := s.pc[p := at];
            && (Woken(s.st, pc, INIT) == Woken(s.st, s.pc, INIT))
            && forall q: nat {:trigger Woken(st, pc, q)} :: Woken(st, pc, q) == Woken(st, s.pc, q)
  {
    hide Woken;
    WokenFacts(s.st, s.pc, p, at, INIT);
    var st := if ChildFrom(s.parent, p, k) then Woken(s.st, s.pc, INIT) else s.st;
    forall q: nat ensures Woken(st, s.pc[p := at], q) == Woken(st, s.pc, q) {
      WokenFacts(st, s.pc, p, at, q);
    }
  }

  /** The state after a child is given to init and init is woken. */
  ghost function Handed(s: State, p: nat, status: int, k: nat): State
    requires Shape(s) && p < |s.st| && k < |s.st|
  {
    Goto(s, p, ExitScan(status, k + 1)).(parent := s.parent[k := Some(INIT)], st := Woken(s.st, s.pc, INIT))
  }

  lemma ExitHands(s: State, p: nat, status: int, k: nat, t: State)
    requires Leaving(s, p, status, k) && k < |s.st| && s.parent[k] == Some(p)
    requires Leads(Handed(s, p, status, k), p, t)
    ensures Leads(s, p, t)
  {
    hide Leads, Handed, Woken;
    var s1 := Goto(s, p, ExitPoke(status, k)).(parent := s.parent[k := Some(INIT)]);
    assert Next(s, Advance(p, false)) == s1;
    Pokes(s, p, status, k);
    StepLeads(s1, p, t);
    StepLeads(s, p, t);
  }

  lemma Pokes(s: State, p: nat, status: int, k: nat)
    requires Leaving(s, p, status, k) && k < |s.st|
    ensures var s1 := Goto(s, p, ExitPoke(status, k)).(parent := s.parent[k := Some(INIT)]);
            Enabled(s1, Advance(p, false)) && Next(s1, Advance(p, false)) == Handed(s, p, status, k)
  {
    hide Woken, ForkStatement, WaitStatement;
    WokenFacts(s.st, s.pc, p, ExitPoke(status, k), INIT);
    var s1 := Goto(s, p, ExitPoke(status, k)).(parent := s.parent[k := Some(INIT)]);
    assert Next(s1, Advance(p, false)).pc == Handed(s, p, status, k).pc;
  }

  lemma HandedEnd(s: State, p: nat, status: int, k: nat)
    requires Leaving(s, p, status, k) && k < |s.st| && s.parent[k] == Some(p)
    ensures ExitEnd(Handed(s, p, status, k), p, status, k + 1) == ExitEnd(s, p, status, k)
  {
    hide Woken;
    var s' := Handed(s, p, status, k);
    assert Adopted(s'.parent, p, k + 1) == Adopted(s.parent, p, k);
    assert ChildFrom(s.parent, p, k);
    WokenFacts(s.st, s.pc, p, s'.pc[p], INIT);
    WokenFacts(s'.st, s.pc, p, s'.pc[p], INIT);
    var parent := Adopted(s.parent, p, k)[p];
    WokenFacts(s'.st, s.pc, p, s'.pc[p], if parent.Some? then parent.value else 0);
    assert Goto(s', p, Dead).pc == Goto(s, p, Dead).pc;
  }

  lemma ExitStops(s: State, p: nat, status: int)
    requires Leaving(s, p, status, |s.st|)
    ensures Leads(s, p, ExitEnd(s, p, status, |s.st|))
  {
    hide Leads, Woken;
    var s1 := Goto(s, p, ExitNotify(status));
    assert Adopted(s.parent, p, |s.st|) == s.parent;
    var q := if s.parent[p].Some? then s.parent[p].value else 0;
    WokenFacts(s.st, s.pc, p, ExitNotify(status), q);
    var s2 := Goto(s, p, ExitZombie(status)).(st := if s.parent[p].Some? then Woken(s.st, s.pc, q) else s.st);
    assert Next(s, Advance(p, false)) == s1;
    assert Next(s1, Advance(p, false)).pc == s2.pc;
    assert Next(s1, Advance(p, false)) == s2;
    var t := Next(s2, Advance(p, false));
    assert t.pc == Goto(s, p, Dead).pc;
    assert t == ExitEnd(s, p, status, |s.st|);
    Stays(t, p);
    StepLeads(s2, p, t);
    StepLeads(s1, p, t);
    StepLeads(s, p, t);
  }

  lemma {:induction false} ExitScans(s: State, p: nat, status: int, k: nat)
    requires Leaving(s, p, status, k)
    ensures Leads(s, p, ExitEnd(s, p, status, k))
    decreases |s.st| - k
  {
    hide Leads, ExitEnd, Next, Enabled, Handed, Woken;
    var t := ExitEnd(s, p, status, k);
    if k == |s.st| {
      ExitStops(s, p, status);
    } else if s.parent[k] == Some(p) {
      HandedLeaves(s, p, status, k);
      HandedEnd(s, p, status, k);
      ExitScans(Handed(s, p, status, k), p, status, k + 1);
      ExitHands(s, p, status, k, t);
    } else {
      ExitPasses(s, p, status, k);
      ExitPassedEnd(s, p, status, k);
      ExitScans(Goto(s, p, ExitScan(status, k + 1)), p, status, k + 1);
      StepLeads(s, p, t);
    }
  }

  lemma HandedLeaves(s: State, p: nat, status: int, k: nat)
    requires Leaving(s, p, status, k) && k < |s.st|
    ensures Leaving(Handed(s, p, status, k), p, status, k + 1) && |Handed(s, p, status, k).st| == |s.st|
  {
    WokenFacts(s.st, s.pc, p, ExitScan(status, k + 1), INIT);
  }

  /**
    A whole call of exit: every child is init's, init and the parent are woken if they wait, and
    the caller is a zombie with its status.
   */
  lemma ExitAlone(s: State, p: nat, status: int)
    requires Shape(s) && 0 < p < |s.st| && s.st[p] == Running && s.waitLock == None && s.pc[p] == Idle
    ensures Enabled(s, Exit(p, status)) && Leads(Next(s, Exit(p, status)), p, ExitEnd(s, p, status, 0))
  {
    hide Leads, Woken;
    var s1 := Next(s, Exit(p, status));
    var s2 := Goto(s, p, ExitScan(status, 0)).(waitLock := Some(p));
    assert Next(s1, Advance(p, false)) == s2;
    ExitScans(s2, p, status, 0);
    WokenFacts(s.st, s.pc, p, s2.pc[p], INIT);
    var st := if ChildFrom(s.parent, p, 0) then Woken(s.st, s.pc, INIT) else s.st;
    var parent := Adopted(s.parent, p, 0)[p];
    WokenFacts(st, s.pc, p, s2.pc[p], if parent.Some? then parent.value else 0);
    assert Goto(s2, p, Dead).pc == Goto(s, p, Dead).pc;
    StepLeads(s1, p, ExitEnd(s2, p, status, 0));
  }

  // ---------------------------------------------------------------------
  // fork

  /** A whole call of fork: a runnable child of the caller with a new pid, and nothing else. */
  lemma ForkAlone(s: State, p: nat, np: nat)
    requires Enabled(s, Fork(p, np)) && s.waitLock == None
    ensures Leads(Next(s, Fork(p, np)), p,
                  s.(st := s.st[np := Runnable], parent := s.parent[np := Some(p)], pid := s.pid[np := s.nextpid],
                     forker := s.forker[np := Some(p)], nextpid := s.nextpid + 1))
  {
    hide Leads, Freed;
    var a := Next(s, Fork(p, np));
    var b := Goto(a, p, ForkLock(np));
    var c := Goto(a, p, ForkLink(np)).(waitLock := Some(p));
    var d := Goto(c, p, ForkUnlock(np)).(parent := s.parent[np := Some(p)]);
    var e := Goto(d, p, ForkRun(np)).(waitLock := None);
    var t := Goto(e, p, Idle).(st := a.st[np := Runnable]);
    assert t.pc == s.pc && t.st == s.st[np := Runnable];
    Stays(t, p);
    assert Next(e, Advance(p, false)) == t;
    StepLeads(e, p, t);
    assert Next(d, Advance(p, false)) == e;
    StepLeads(d, p, t);
    assert Next(c, Advance(p, false)) == d;
    StepLeads(c, p, t);
    assert Next(b, Advance(p, false)).pc == c.pc;
    StepLeads(b, p, t);
    StepLeads(a, p, t);
  }

  /** When the memory runs out, fork leaves the slot free; only the pid is used up. */
  lemma ForkFails(s: State, p: nat, np: nat)
    requires Enabled(s, Fork(p, np))
    ensures var a := Next(s, Fork(p, np));
            && Enabled(a, Advance(p, true))
            && Next(a, Advance(p, true)) == Freed(s, np).(nextpid := s.nextpid + 1, forker := s.forker[np := Some(p)])
  {
    var a := Next(s, Fork(p, np));
    var t := Freed(s, np).(nextpid := s.nextpid + 1, forker := s.forker[np := Some(p)]);
    assert Next(a, Advance(p, true)).pc == t.pc;
  }

  // ---------------------------------------------------------------------
  // exit, then the parent's wait

  ghost predicate Reaches(s: State, t: State) { exists steps :: IsRun(s, steps) && After(s, steps) == t }

  lemma {:induction false} RunOn(s: State, a: seq<Step>, b: seq<Step>)
    requires IsRun(s, a) && IsRun(After(s, a), b)
    ensures IsRun(s, a + b) && After(s, a + b) == After(After(s, a), b)
    decreases |a|
  {
    hide Next, Enabled;
    if a == [] {
      assert a + b == b;
    } else {
      RunOn(Next(s, a[0]), a[1..], b);
      assert (a + b)[1..] == a[1..] + b;
    }
  }

  lemma ReachesOn(s: State, t: State, u: State)
    requires Reaches(s, t) && Reaches(t, u)
    ensures Reaches(s, u)
  {
    hide IsRun, After;
    var a :| IsRun(s, a) && After(s, a) == t;
    var b :| IsRun(t, b) && After(t, b) == u;
    RunOn(s, a, b);
  }

  lemma ReachesStep(s: State, step: Step)
    requires Enabled(s, step)
    ensures Reaches(s, Next(s, step))
  {
    hide Next, Enabled;
    assert IsRun(Next(s, step), [step][1..]) && After(Next(s, step), [step][1..]) == Next(s, step);
    assert IsRun(s, [step]) && After(s, [step]) == Next(s, step);
  }

  lemma LeadsReaches(s: State, p: nat, t: State)
    requires Leads(s, p, t)
    ensures Reaches(s, t)
  {
    hide IsRun, After;
  }

  lemma ReachesKeeps(s: State, t: State)
    requires Inv(s) && Reaches(s, t)
    ensures Inv(t)
  {
    hide Inv, IsRun, After;
    var steps :| IsRun(s, steps) && After(s, steps) == t;
    RunKeeps(s, steps);
  }

  /** The sleeping parent q after its child p has left. */
  lemma ParentWoken(s: State, p: nat, status: int, q: nat)
    requires Inv(s) && 0 < p < |s.st| && s.st[p] == Running && s.pc[p] == Idle && s.waitLock == None
    requires s.parent[p] == Some(q) && Waiting(s.st, s.pc, q)
    ensures var t := ExitEnd(s, p, status, 0);
            && Inv(t) && Reaches(s, t) && |t.st| == |s.st| && q != p && t.st[q] == Runnable && t.pc[q] == Asleep
            && t.parent[p] == Some(q) && t.st[p] == Zombie && t.waitLock == None && t.pid == s.pid
              && t.reaped == s.reaped
  {
    hide Leads, Reaches, Inv;
    assert Shape(s) by { InvShape(s); }
    ExitAlone(s, p, status);
    var t := ExitEnd(s, p, status, 0);
    LeadsReaches(Next(s, Exit(p, status)), p, t);
    ReachesStep(s, Exit(p, status));
    ReachesOn(s, Next(s, Exit(p, status)), t);
    ReachesKeeps(s, t);
  }

  lemma InvShape(s: State)
    requires Inv(s)
    ensures Shape(s)
  {
  }

  /** A zombie child of q after the exit of p was one before, or is p, or came to init from p. */
  lemma OtherZombies(s: State, p: nat, status: int, q: nat, z: nat)
    requires Inv(s) && 0 < p < |s.st| && s.waitLock == None && Waiting(s.st, s.pc, q) && z < |s.st|
    requires var t := ExitEnd(s, p, status, 0); t.st[z] == Zombie && t.parent[z] == Some(q)
    ensures z == p || (q == INIT && ChildFrom(s.parent, p, 0))
  {
    hide Tree, Phases, Births, Scans, LockOk, Pids;
    assert NoZombies(s.st, s.parent, q, |s.st|);
    if z != p && s.parent[z] != Some(q) {
      assert s.parent[z] == Some(p);
    }
  }

  /**
    From exit to wait: the parent, asleep in wait, is woken, scheduled, and returns with a zombie
    child.  That is the one that just left, with its status, unless init has inherited others.
   */
  lemma ExitThenWait(s: State, p: nat, status: int, q: nat) returns (t: State, z: nat)
    requires Inv(s) && 0 < p < |s.st| && s.st[p] == Running && s.pc[p] == Idle && s.waitLock == None
    requires s.parent[p] == Some(q) && Waiting(s.st, s.pc, q)
    ensures Reaches(s, t) && z < |s.st| == |t.st| && q < |t.pc| && t.pc[q] == Idle && t.st[q] == Running
    ensures t.st[z] == Unused && s.pid[z] in t.reaped && t.reaped[s.pid[z]].0 == s.pid[q]
    ensures (q != INIT || !ChildFrom(s.parent, p, 0)) ==> z == p && t.reaped[s.pid[p]].1 == status
  {
    hide Leads, Reaches, Inv, ExitEnd;
    InvShape(s);
    ParentWoken(s, p, status, q);
    var t1 := ExitEnd(s, p, status, 0);
    InvShape(t1);
    var t2 := Next(t1, Schedule(q));
    z := FirstZombie(t2.st, t2.parent, q, 0);
    WaitAlone(t2, q);
    t := Goto(Freed(t2, z), q, Idle).(reaped := t2.reaped[t2.pid[z] := (t2.pid[q], t2.xstate[z])]);
    LeadsReaches(t2, q, t);
    ReachesStep(t1, Schedule(q));
    ReachesOn(s, t1, t2);
    ReachesOn(s, t2, t);
    OtherZombies(s, p, status, q, z);
    LeftStatus(s, p, status);
  }

  lemma LeftStatus(s: State, p: nat, status: int)
    requires Shape(s) && p < |s.st|
    ensures ExitEnd(s, p, status, 0).xstate[p] == status
  {
  }

  // ---------------------------------------------------------------------
  // A killed process leaves wait

  lemma {:induction false} ToDecide(s: State, p: nat, k: nat, kids: bool)
    requires Scanning(s, p, k, kids) && forall j: nat | k <= j < |s.st| && s.parent[j] == Some(p) :: s.st[j] != Zombie
    ensures Leads(s, p, Goto(s, p, WaitDecide(kids || ChildFrom(s.parent, p, k))))
    decreases |s.st| - k
  {
    hide Leads, Enabled, Freed, ForkStatement, ExitStatement;
    var t := Goto(s, p, WaitDecide(kids || ChildFrom(s.parent, p, k)));
    CanScan(s, p, k, kids);
    if k == |s.st| {
      Stays(t, p);
      assert Next(s, Advance(p, false)) == t;
    } else {
      WaitPasses(s, p, k, kids);
      var more := kids || s.parent[k] == Some(p);
      var s' := Goto(s, p, WaitScan(k + 1, more));
      assert more || ChildFrom(s.parent, p, k + 1) <==> kids || ChildFrom(s.parent, p, k);
      ToDecide(s', p, k + 1, more);
      assert Goto(s', p, t.pc[p]) == t;
    }
    StepLeads(s, p, t);
  }

  lemma CanScan(s: State, p: nat, k: nat, kids: bool)
    requires Scanning(s, p, k, kids)
    ensures Enabled(s, Advance(p, false))
  {
  }

  /** Killed, woken and scheduled, the sleeper takes the lock again. */
  lemma WokenUp(s: State, p: nat)
    requires Shape(s) && Waiting(s.st, s.pc, p) && s.waitLock == None
    ensures var c := Goto(s, p, WaitScan(0, false)).(st := s.st[p := Running], waitLock := Some(p));
            Reaches(s, c) && Scanning(c, p, 0, false)
  {
    hide Reaches, Freed;
    var a := Next(s, Wake(p));
    var b := Next(a, Schedule(p));
    assert b == s.(st := s.st[p := Running]);
    ReachesStep(s, Wake(p));
    ReachesStep(a, Schedule(p));
    ReachesStep(b, Advance(p, false));
    ReachesOn(s, a, b);
    ReachesOn(s, b, Next(b, Advance(p, false)));
  }

  lemma DecideKilled(d: State, p: nat, kids: bool)
    requires Shape(d) && p < |d.st| && d.st[p] == Running && d.waitLock == Some(p) && d.pc[p] == WaitDecide(kids)
    ensures Reaches(d, Goto(d, p, Idle).(waitLock := None))
  {
    hide Reaches, Freed;
    ReachesStep(d, Advance(p, true));
  }

  /** A process asleep in wait that is killed returns although its children still run. */
  lemma KilledWait(s: State, p: nat)
    requires Inv(s) && Waiting(s.st, s.pc, p) && s.waitLock == None
    ensures Reaches(s, Goto(s, p, Idle).(st := s.st[p := Running]))
  {
    hide Leads, Reaches, Freed, Tree, Phases, Births, Scans, LockOk, Pids;
    WokenUp(s, p);
    var c := Goto(s, p, WaitScan(0, false)).(st := s.st[p := Running], waitLock := Some(p));
    assert NoZombies(s.st, s.parent, p, |s.st|);
    ToDecide(c, p, 0, false);
    var d := Goto(c, p, WaitDecide(ChildFrom(s.parent, p, 0)));
    LeadsReaches(c, p, d);
    DecideKilled(d, p, ChildFrom(s.parent, p, 0));
    var t := Goto(s, p, Idle).(st := s.st[p := Running]);
    assert Goto(d, p, Idle).pc == t.pc;
    ReachesOn(s, c, d);
    ReachesOn(s, d, t);
  }

  // ---------------------------------------------------------------------
  // No slot is lost

  /** Every slot being filled is filled by the fork of its forker. */
  ghost predicate Cradled(s: State) {
    && Shape(s)
    && forall k: nat | k < |s.st| && s.st[k] == Used :: Cradle(s, k)
  }

  ghost predicate Cradle(s: State, k: nat)
    requires Shape(s) && k < |s.st|
  {
    && s.forker[k].Some? && s.forker[k].value < |s.st| && Forking(s.pc[s.forker[k].value])
    && s.pc[s.forker[k].value].np == k
  }

  lemma ForkCradle(s: State, p: nat, fail: bool, k: nat)
    requires Shape(s) && p < |s.st| && Forking(s.pc[p]) && s.pc[p].np < |s.st| && k < |s.st|
    requires s.st[s.pc[p].np] == Used && s.pc[s.pc[p].np] == Idle && (s.st[k] == Used ==> Cradle(s, k))
    ensures var s' := ForkStatement(s, p, fail); Shape(s') && |s'.st| == |s.st| && (s'.st[k] == Used ==> Cradle(s', k))
  {
  }

  lemma ExitCradle(s: State, p: nat, k: nat)
    requires Shape(s) && p < |s.st| && Exiting(s.pc[p]) && k < |s.st| && (s.st[k] == Used ==> Cradle(s, k))
    ensures var s' := ExitStatement(s, p); Shape(s') && |s'.st| == |s.st| && (s'.st[k] == Used ==> Cradle(s', k))
  {
  }

  lemma WaitCradle(s: State, p: nat, fail: bool, k: nat)
    requires Shape(s) && p < |s.st| && InWait(s.pc[p]) && k < |s.st| && (s.st[k] == Used ==> Cradle(s, k))
    requires Phases(s.st, s.pc) && s.st[p] == Running
    ensures var s' := WaitStatement(s, p, fail); Shape(s') && |s'.st| == |s.st| && (s'.st[k] == Used ==> Cradle(s', k))
  {
    hide WaitStatement;
    WaitForkers(s, p, fail);
    if s.pc[p].WaitScan? {
      var reaps := ScanEffect(s, p, fail);
      assert reaps ==> PhaseOk(s.st[s.pc[p].k], s.pc[s.pc[p].k]);
    } else {
      WaitEffect(s, p, fail);
    }
  }

  lemma WaitForkers(s: State, p: nat, fail: bool)
    requires Shape(s) && p < |s.st| && InWait(s.pc[p])
    ensures WaitStatement(s, p, fail).forker == s.forker
  {
  }

  lemma OtherCradle(s: State, step: Step, k: nat)
    requires Enabled(s, step) && !step.Advance? && k < |s.st| && (s.st[k] == Used ==> Cradle(s, k))
    ensures var s' := Next(s, step); Shape(s') && |s'.st| == |s.st| && (s'.st[k] == Used ==> Cradle(s', k))
  {
    hide ForkStatement, ExitStatement, WaitStatement;
  }

  lemma StepCradled(s: State, step: Step)
    requires Inv(s) && Enabled(s, step) && Cradled(s)
    ensures Cradled(Next(s, step))
  {
    hide Tree, Scans, Waiters, LockOk, Pids, ForkStatement, ExitStatement, WaitStatement, Cradle;
    var s' := Next(s, step);
    CradleKept(s, step, INIT);
    forall k: nat | k < |s.st| ensures Shape(s') && |s'.st| == |s.st| && (s'.st[k] == Used ==> Cradle(s', k)) {
      CradleKept(s, step, k);
    }
  }

  lemma CradleKept(s: State, step: Step, k: nat)
    requires Inv(s) && Enabled(s, step) && Cradled(s) && k < |s.st|
    ensures var s' := Next(s, step); Shape(s') && |s'.st| == |s.st| && (s'.st[k] == Used ==> Cradle(s', k))
  {
    hide Tree, Scans, Waiters, LockOk, Pids, ForkStatement, ExitStatement, WaitStatement, Cradle;
    if !step.Advance? {
      OtherCradle(s, step, k);
    } else if Forking(s.pc[step.p]) {
      assert PhaseOk(s.st[s.pc[step.p].np], s.pc[s.pc[step.p].np]);
      ForkCradle(s, step.p, step.fail, k);
    } else if Exiting(s.pc[step.p]) {
      ExitCradle(s, step.p, k);
    } else {
      assert s.st[step.p] == Running;
      WaitCradle(s, step.p, step.fail, k);
    }
  }

  /** In every run, a slot marked as being filled is one a fork is working on. */
  lemma {:induction false} NoLostSlot(s: State, steps: seq<Step>)
    requires Inv(s) && Cradled(s) && IsRun(s, steps)
    ensures Cradled(After(s, steps))
    decreases |steps|
  {
    hide Inv, Enabled, Next, Cradled;
    if steps != [] {
      StepKeeps(s, steps[0]);
      StepCradled(s, steps[0]);
      NoLostSlot(Next(s, steps[0]), steps[1..]);
    }
  }

  lemma InitCradled(s: State)
    requires Init(s)
    ensures Inv(s) && Cradled(s)
  {
    InitInv(s);
  }
}
