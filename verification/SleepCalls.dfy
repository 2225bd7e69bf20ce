/**
  acquiresleep and releasesleep (kernel/sleeplock.c) as whole calls: what the statements of module
  Sleep add up to when the caller runs through, and how a lock passes to a process that sleeps for it.
 */
module SleepCalls {
  import opened Prelude
  import opened Sleep

  /** s becomes t when p takes its statements one after the other. */
  ghost predicate Leads(s: State, p: nat, keep: bool, t: State) {
    exists steps ::
      (forall i | 0 <= i < |steps| :: steps[i] == Advance(p, keep)) && IsRun(s, steps) && After(s, steps) == t
  }

  lemma Stays(s: State, p: nat, keep: bool)
    ensures Leads(s, p, keep, s)
  {
    assert IsRun(s, []) && After(s, []) == s;
  }

  lemma StepLeads(s: State, p: nat, keep: bool, t: State)
    requires Enabled(s, Advance(p, keep)) && Leads(Next(s, Advance(p, keep)), p, keep, t)
    ensures Leads(s, p, keep, t)
  {
    hide Next, Enabled;
    var s' := Next(s, Advance(p, keep));
    var rest :| (forall i | 0 <= i < |rest| :: rest[i] == Advance(p, keep)) && IsRun(s', rest) && After(s', rest) == t;
    var steps := [Advance(p, keep)] + rest;
    assert steps[1..] == rest;
  }

  /** p holds the spinlock of l and is about to test the condition. */
  ghost predicate Testing(s: State, p: nat, l: nat) {
    && Shape(s) && p < |s.pc| && l < |s.lk| && s.pc[p] == WaitTest(l) && s.run[p] == Running
    && s.lk[l] == Some(p) && s.plock[p] == None
  }

  /** The lock is free: p takes it and records itself. */
  lemma Takes(s: State, p: nat, l: nat, keep: bool)
    requires Testing(s, p, l) && s.ready[l]
    ensures Leads(s, p, keep, Goto(s, p, Idle).(ready := s.ready[l := keep], owner := s.owner[l := Some(p)],
                                                lk := s.lk[l := None]))
  {
    hide Leads;
    var a := Goto(s, p, WaitTake(l));
    var b := Goto(s, p, WaitDone(l)).(ready := s.ready[l := keep], owner := s.owner[l := Some(p)]);
    var t := Goto(s, p, Idle).(ready := b.ready, owner := b.owner, lk := s.lk[l := None]);
    assert Next(s, Advance(p, keep)) == a;
    assert Next(a, Advance(p, keep)).pc == b.pc;
    assert Next(b, Advance(p, keep)).pc == t.pc;
    Stays(t, p, keep);
    StepLeads(b, p, keep, t);
    StepLeads(a, p, keep, t);
    StepLeads(s, p, keep, t);
  }

  /** The lock is taken: p gives up the spinlock and sleeps on l. */
  lemma Sleeps(s: State, p: nat, l: nat, keep: bool)
    requires Testing(s, p, l) && !s.ready[l]
    ensures Leads(s, p, keep, Goto(s, p, SleepOff(l)).(run := s.run[p := Sleeping], chan := s.chan[p := Some(l)],
                                                       lk := s.lk[l := None]))
  {
    hide Leads;
    var a := Goto(s, p, SleepEntry(l));
    var b := Goto(s, p, SleepLocked(l)).(plock := s.plock[p := Some(p)]);
    var c := Goto(s, p, SleepChan(l)).(plock := b.plock, lk := s.lk[l := None]);
    var d := Goto(s, p, SleepState(l)).(plock := b.plock, lk := c.lk, chan := s.chan[p := Some(l)]);
    var e := Goto(s, p, SleepSched(l)).(plock := b.plock, lk := c.lk, chan := d.chan, run := s.run[p := Sleeping]);
    var t := Goto(s, p, SleepOff(l)).(run := e.run, chan := d.chan, lk := c.lk);
    assert Next(s, Advance(p, keep)) == a;
    assert Next(a, Advance(p, keep)).pc == b.pc && Next(b, Advance(p, keep)).pc == c.pc;
    assert Next(c, Advance(p, keep)).pc == d.pc && Next(d, Advance(p, keep)).pc == e.pc;
    assert Next(e, Advance(p, keep)).pc == t.pc && t.plock == e.plock[p := None];
    Stays(t, p, keep);
    StepLeads(e, p, keep, t);
    StepLeads(d, p, keep, t);
    StepLeads(c, p, keep, t);
    StepLeads(b, p, keep, t);
    StepLeads(a, p, keep, t);
    StepLeads(s, p, keep, t);
  }

  /** A whole call of acquiresleep: the lock is taken, or the caller sleeps on it. */
  lemma AcquireAlone(s: State, p: nat, l: nat, keep: bool)
    requires Enabled(s, Enter(p, l)) && s.lk[l] == None && s.plock[p] == None
    ensures Leads(Next(s, Enter(p, l)), p, keep,
                  if s.ready[l] then s.(ready := s.ready[l := keep], owner := s.owner[l := Some(p)])
                  else Goto(s, p, SleepOff(l)).(run := s.run[p := Sleeping], chan := s.chan[p := Some(l)]))
  {
    hide Leads;
    var a := Next(s, Enter(p, l));
    var b := Goto(s, p, WaitTest(l)).(lk := s.lk[l := Some(p)]);
    assert Next(a, Advance(p, keep)).pc == b.pc;
    assert b.lk[l := None] == s.lk && Goto(b, p, Idle).pc == s.pc
      && Goto(b, p, SleepOff(l)).pc == s.pc[p := SleepOff(l)];
    if s.ready[l] {
      Takes(b, p, l, keep);
      StepLeads(a, p, keep, s.(ready := s.ready[l := keep], owner := s.owner[l := Some(p)]));
    } else {
      Sleeps(b, p, l, keep);
      StepLeads(a, p, keep, Goto(s, p, SleepOff(l)).(run := s.run[p := Sleeping], chan := s.chan[p := Some(l)]));
    }
  }

  /** The processes from k on that sleep on l, made runnable. */
  function Awake(run: seq<RunState>, chan: seq<Option<nat>>, l: nat, p: nat, k: nat): (r: seq<RunState>)
    requires |chan| == |run|
    ensures |r| == |run|
  {
    seq(|run|, j requires 0 <= j < |run| =>
      if k <= j && j != p && run[j] == Sleeping && chan[j] == Some(l) then Runnable else run[j])
  }

  /** p is in wakeup, before process k, and no process lock it needs is held. */
  ghost predicate Waking(s: State, p: nat, l: nat, k: nat) {
    && Shape(s) && p < |s.pc| && l < |s.lk| && s.pc[p] == WakeScan(l, k) && s.run[p] == Running && k <= |s.pc|
    && forall j: nat | j < |s.pc| && j != p :: s.plock[j] == None
  }

  /** How releasesleep ends from process k on. */
  ghost function WakeEnd(s: State, p: nat, l: nat, k: nat): State
    requires Shape(s) && p < |s.pc| && l < |s.lk|
  {
    Goto(s, p, Idle).(run := Awake(s.run, s.chan, l, p, k), lk := s.lk[l := None])
  }

  /** One turn of wakeup's loop. */
  lemma WakesOne(s: State, p: nat, l: nat, k: nat, keep: bool, t: State)
    requires Waking(s, p, l, k) && k < |s.pc| && k != p
    requires var run := if s.run[k] == Sleeping && s.chan[k] == Some(l) then s.run[k := Runnable] else s.run;
             Leads(Goto(s, p, WakeScan(l, k + 1)).(run := run), p, keep, t)
    ensures Leads(s, p, keep, t)
  {
    hide Leads;
    var run := if s.run[k] == Sleeping && s.chan[k] == Some(l) then s.run[k := Runnable] else s.run;
    var a := Goto(s, p, WakeLook(l, k)).(plock := s.plock[k := Some(p)]);
    var b := Goto(s, p, WakeScan(l, k + 1)).(run := run);
    assert Next(s, Advance(p, keep)) == a;
    assert a.plock[k := None] == s.plock && Next(a, Advance(p, keep)).pc == b.pc;
    assert Next(a, Advance(p, keep)) == b;
    StepLeads(a, p, keep, t);
    StepLeads(s, p, keep, t);
  }

  lemma {:induction false} Wakes(s: State, p: nat, l: nat, k: nat, keep: bool)
    requires Waking(s, p, l, k)
    ensures Leads(s, p, keep, WakeEnd(s, p, l, k))
    decreases |s.pc| - k
  {
    hide Leads;
    var t := WakeEnd(s, p, l, k);
    if k == |s.pc| {
      assert Awake(s.run, s.chan, l, p, k) == s.run;
      Stays(t, p, keep);
      var a := Goto(s, p, SignalDone(l));
      assert Next(s, Advance(p, keep)) == a;
      assert Next(a, Advance(p, keep)).pc == t.pc;
      StepLeads(a, p, keep, t);
      StepLeads(s, p, keep, t);
    } else {
      var run := if k != p && s.run[k] == Sleeping && s.chan[k] == Some(l) then s.run[k := Runnable] else s.run;
      var s' := Goto(s, p, WakeScan(l, k + 1)).(run := run);
      assert Awake(run, s.chan, l, p, k + 1) == Awake(s.run, s.chan, l, p, k);
      assert WakeEnd(s', p, l, k + 1) == t;
      Wakes(s', p, l, k + 1, keep);
      if k == p {
        StepLeads(s, p, keep, t);
      } else {
        WakesOne(s, p, l, k, keep, t);
      }
    }
  }

  /** s with the lock released and the sleepers on it runnable. */
  ghost function Released(s: State, p: nat, l: nat): State
    requires Shape(s) && l < |s.lk|
  {
    s.(ready := s.ready[l := true], owner := s.owner[l := None], run := Awake(s.run, s.chan, l, p, 0))
  }

  /** A whole call of releasesleep: the lock is free and exactly the sleepers on it are runnable. */
  lemma ReleaseAlone(s: State, p: nat, l: nat, keep: bool)
    requires Enabled(s, BeginSignal(p, l)) && s.lk[l] == None && forall j: nat | j < |s.pc| :: s.plock[j] == None
    ensures Leads(Next(s, BeginSignal(p, l)), p, keep, Released(s, p, l))
  {
    hide Leads;
    var a := Next(s, BeginSignal(p, l));
    var b := Goto(s, p, SignalChange(l)).(lk := s.lk[l := Some(p)]);
    var c := Goto(b, p, WakeScan(l, 0)).(ready := s.ready[l := true], owner := s.owner[l := None]);
    var t := Released(s, p, l);
    Wakes(c, p, l, 0, keep);
    assert WakeEnd(c, p, l, 0).pc == t.pc && WakeEnd(c, p, l, 0).lk == t.lk;
    assert WakeEnd(c, p, l, 0) == t;
    assert Next(a, Advance(p, keep)).pc == b.pc;
    assert Next(b, Advance(p, keep)) == c;
    StepLeads(b, p, keep, t);
    StepLeads(a, p, keep, t);
  }

  /** q is off the processor in sleep, its lock free, and the channel's spinlock is free. */
  ghost predicate Off(s: State, q: nat, l: nat) {
    && Shape(s) && q < |s.pc| && l < |s.lk| && s.pc[q] == SleepOff(l) && s.chan[q] == Some(l)
    && s.plock[q] == None && s.lk[l] == None
  }

  /** q back on the processor, with the spinlock, about to test the condition. */
  ghost function Back(s: State, q: nat, l: nat): State
    requires Off(s, q, l)
  {
    Goto(s, q, WaitTest(l)).(run := s.run[q := Running], chan := s.chan[q := None], lk := s.lk[l := Some(q)])
  }

  lemma ComesBack(s: State, q: nat, l: nat, keep: bool, t: State)
    requires Off(s, q, l) && s.run[q] == Runnable && Leads(Back(s, q, l), q, keep, t)
    ensures Enabled(s, Dispatch(q)) && Leads(Next(s, Dispatch(q)), q, keep, t)
  {
    hide Leads;
    var a := Next(s, Dispatch(q));
    var b := Goto(a, q, SleepTidy(l)).(chan := s.chan[q := None]);
    var c := Goto(b, q, SleepRetake(l)).(plock := s.plock);
    assert Next(a, Advance(q, keep)) == b;
    assert b.plock[q := None] == s.plock && Next(b, Advance(q, keep)) == c;
    assert Next(c, Advance(q, keep)).pc == Back(s, q, l).pc;
    StepLeads(c, q, keep, t);
    StepLeads(b, q, keep, t);
    StepLeads(a, q, keep, t);
  }

  /** A sleeper that was made runnable tests the lock again: it has the lock, or sleeps as before. */
  lemma ResumeAlone(s: State, q: nat, l: nat, keep: bool)
    requires Off(s, q, l) && s.run[q] == Runnable
    ensures Enabled(s, Dispatch(q))
    ensures Leads(Next(s, Dispatch(q)), q, keep,
                  if s.ready[l] then
                    Goto(s, q, Idle).(ready := s.ready[l := keep], owner := s.owner[l := Some(q)],
                                      run := s.run[q := Running], chan := s.chan[q := None])
                  else s.(run := s.run[q := Sleeping]))
  {
    hide Leads, Next;
    var d := Back(s, q, l);
    assert d.lk[l := None] == s.lk;
    if s.ready[l] {
      var t := Goto(s, q, Idle).(ready := s.ready[l := keep], owner := s.owner[l := Some(q)],
                                 run := s.run[q := Running], chan := s.chan[q := None]);
      Takes(d, q, l, keep);
      assert Goto(d, q, Idle).pc == t.pc;
      ComesBack(s, q, l, keep, t);
    } else {
      var t := s.(run := s.run[q := Sleeping]);
      Sleeps(d, q, l, keep);
      assert Goto(d, q, SleepOff(l)).pc == t.pc && d.chan[q := Some(l)] == t.chan && d.run[q := Sleeping] == t.run;
      ComesBack(s, q, l, keep, t);
    }
  }

  /** From releasesleep to a sleeping process: it is woken and, dispatched, gets the lock. */
  lemma LockPassesOn(s: State, p: nat, q: nat, l: nat, keep: bool)
    requires Enabled(s, BeginSignal(p, l)) && (forall j: nat | j < |s.pc| :: s.plock[j] == None)
    requires Off(s, q, l) && s.run[q] == Sleeping
    ensures var t := Released(s, p, l);
            && Leads(Next(s, BeginSignal(p, l)), p, keep, t) && Enabled(t, Dispatch(q))
            && Leads(Next(t, Dispatch(q)), q, keep,
                     Goto(t, q, Idle).(ready := s.ready[l := keep], owner := s.owner[l := Some(q)],
                                       run := t.run[q := Running], chan := s.chan[q := None]))
  {
    hide Leads;
    ReleaseAlone(s, p, l, keep);
    var t := Released(s, p, l);
    ResumeAlone(t, q, l, keep);
    assert t.ready[l := keep] == s.ready[l := keep] && t.owner[l := Some(q)] == s.owner[l := Some(q)];
  }

  /** kill gets a sleeper going, but acquiresleep puts it back to sleep where it was. */
  lemma KilledSleepsAgain(s: State, q: nat, l: nat, keep: bool)
    requires Off(s, q, l) && s.run[q] == Sleeping && !s.ready[l]
    ensures Enabled(s, Kill(q)) && Enabled(Next(s, Kill(q)), Dispatch(q))
    ensures Leads(Next(Next(s, Kill(q)), Dispatch(q)), q, keep, s)
  {
    hide Leads;
    ResumeAlone(Next(s, Kill(q)), q, l, keep);
    assert s.run[q := Runnable][q := Sleeping] == s.run;
  }
}
