/**
 The effect of each system call of the process machine on its own: CPU c runs
 process p, and the locks that the call takes are free.
 */
module ProcsCalls {
  import opened Options
  import opened Procs
  import opened ProcsRuns
  import opened ProcsProgress

  /** CPU c runs the thread of p, at this point of its code. */
  predicate Here(s: St, c: nat, p: nat, pc: Pc) {
    Shape(s) && c < |s.cpu| && p < |s.st| && s.cpu[c] == Run(p) && s.pc[p] == pc
  }

  /** The lock that p is about to take, if any, is free. */
  predicate Clear(s: St, p: nat)
    requires p < |s.pc|
  {
    Wants(s, p).Some? ==> Free(s, Wants(s, p).value)
  }

  lemma StepUser(s: St, c: nat, m: St, p: nat, ch: Choice) returns (e: St)
    requires Leads(s, c, m) && Here(m, c, p, User)
    ensures Leads(s, c, e) && e == Start(m, p, ch)
  {
    hide Leads, Start, GateStep, SleepStep, ExitStep, FamilyStep, SchedStep;
    Step(s, c, m, ch);
    e := Start(m, p, ch);
  }

  lemma StepGate(s: St, c: nat, m: St, p: nat, ch: Choice) returns (e: St)
    requires Leads(s, c, m) && p < |m.pc| && Here(m, c, p, m.pc[p]) && InGate(m.pc[p])
    ensures Leads(s, c, e) && e == GateStep(m, p, ch)
  {
    hide Leads, Start, GateStep, SleepStep, ExitStep, FamilyStep, SchedStep;
    Step(s, c, m, ch);
    e := GateStep(m, p, ch);
  }

  lemma StepSleep(s: St, c: nat, m: St, p: nat) returns (e: St)
    requires Leads(s, c, m) && p < |m.pc| && Here(m, c, p, m.pc[p]) && InSleep(m.pc[p]) && Clear(m, p)
    ensures Leads(s, c, e) && e == SleepStep(m, c, p)
  {
    hide Leads, Start, GateStep, SleepStep, ExitStep, FamilyStep, SchedStep, Wants;
    Step(s, c, m, Next);
    e := SleepStep(m, c, p);
  }

  lemma StepExit(s: St, c: nat, m: St, p: nat) returns (e: St)
    requires Leads(s, c, m) && p < |m.pc| && Here(m, c, p, m.pc[p]) && InExit(m.pc[p]) && Clear(m, p)
    ensures Leads(s, c, e) && e == ExitStep(m, c, p)
  {
    hide Leads, Start, GateStep, SleepStep, ExitStep, FamilyStep, SchedStep, Wants;
    Step(s, c, m, Next);
    e := ExitStep(m, c, p);
  }

  predicate InFamily(pc: Pc) {
    pc.Wait1? || pc.WaitScan? || pc.WaitChild? || pc.WaitOut? || pc.Fork1? || pc.Fork2? || pc.Fork3? || pc.Fork4?
    || pc.Fork5? || pc.Fork6? || pc.Fork7?
  }

  lemma StepFamily(s: St, c: nat, m: St, p: nat, ch: Choice) returns (e: St)
    requires Leads(s, c, m) && p < |m.pc| && Here(m, c, p, m.pc[p]) && InFamily(m.pc[p]) && Clear(m, p)
    ensures Leads(s, c, e) && e == FamilyStep(m, c, p, ch)
  {
    hide Leads, Start, GateStep, SleepStep, ExitStep, FamilyStep, SchedStep, Wants;
    Step(s, c, m, ch);
    e := FamilyStep(m, c, p, ch);
  }

  lemma StepSched(s: St, c: nat, m: St) returns (e: St)
    requires Leads(s, c, m) && Shape(m) && c < |m.cpu| && m.cpu[c].Back?
    ensures Leads(s, c, e) && e == SchedStep(m, c)
  {
    hide Leads, SchedStep, ThreadStep;
    Step(s, c, m, Next);
    e := SchedStep(m, c);
  }

  // ----- one step -----

  lemma DoKill0(s: St, c: nat, m: St, p: nat, i: nat) returns (e: St)
    requires Leads(s, c, m) && Here(m, c, p, User) && i < |m.st|
    ensures Leads(s, c, e) && e == m.(pc := m.pc[p := Kill1(i)])
  {
    hide Leads;
    e := StepUser(s, c, m, p, Kill(i));
  }

  lemma DoKill1(s: St, c: nat, m: St, p: nat, i: nat) returns (e: St)
    requires Leads(s, c, m) && Here(m, c, p, Kill1(i)) && P(i) !in m.lock
    ensures Leads(s, c, e) && e == m.(pc := m.pc[p := Kill2(i)], lock := m.lock[P(i) := c])
  {
    hide Leads;
    e := StepExit(s, c, m, p);
  }

  lemma DoKill2(s: St, c: nat, m: St, p: nat, i: nat) returns (e: St)
    requires Leads(s, c, m) && Here(m, c, p, Kill2(i)) && i < |m.st|
    ensures Leads(s, c, e) && e == m.(pc := m.pc[p := User], st := if m.st[i] == Sleeping
            then m.st[i := Runnable] else m.st, lock := m.lock - {P(i)})
  {
    hide Leads;
    e := StepExit(s, c, m, p);
  }

  lemma DoYield0(s: St, c: nat, m: St, p: nat) returns (e: St)
    requires Leads(s, c, m) && Here(m, c, p, User)
    ensures Leads(s, c, e) && e == m.(pc := m.pc[p := Yield1])
  {
    hide Leads;
    e := StepUser(s, c, m, p, Yield);
  }

  lemma DoYield1(s: St, c: nat, m: St, p: nat) returns (e: St)
    requires Leads(s, c, m) && Here(m, c, p, Yield1) && P(p) !in m.lock
    ensures Leads(s, c, e) && e == m.(pc := m.pc[p := Yield2], lock := m.lock[P(p) := c])
  {
    hide Leads;
    e := StepExit(s, c, m, p);
  }

  lemma DoYield2(s: St, c: nat, m: St, p: nat) returns (e: St)
    requires Leads(s, c, m) && Here(m, c, p, Yield2)
    ensures Leads(s, c, e) && e == m.(pc := m.pc[p := Sched(YieldR)], st := m.st[p := Runnable])
  {
    hide Leads;
    e := StepExit(s, c, m, p);
  }

  lemma DoResume(s: St, c: nat, m: St, p: nat, pc: Pc) returns (e: St)
    requires Leads(s, c, m) && Here(m, c, p, pc) && (pc == YieldR || pc == ForkRet)
    ensures Leads(s, c, e) && e == m.(pc := m.pc[p := User], lock := m.lock - {P(p)})
  {
    hide Leads;
    e := StepExit(s, c, m, p);
  }

  lemma DoSched(s: St, c: nat, m: St, p: nat, next: Pc) returns (e: St)
    requires Leads(s, c, m) && Here(m, c, p, Sched(next))
    ensures Leads(s, c, e) && e == m.(pc := m.pc[p := next], cpu := m.cpu[c := Back(p)], on := m.on[p := None])
  {
    hide Leads;
    e := StepExit(s, c, m, p);
  }

  lemma DoAcq0(s: St, c: nat, m: St, p: nat, k: nat) returns (e: St)
    requires Leads(s, c, m) && Here(m, c, p, User) && k < |m.locked|
    ensures Leads(s, c, e) && e == m.(pc := m.pc[p := AcqEnter(k)])
  {
    hide Leads;
    e := StepUser(s, c, m, p, Acquire(k));
  }

  lemma DoAcqEnter(s: St, c: nat, m: St, p: nat, k: nat) returns (e: St)
    requires Leads(s, c, m) && Here(m, c, p, AcqEnter(k)) && K(k) !in m.lock
    ensures Leads(s, c, e) && e == m.(pc := m.pc[p := AcqCheck(k)], lock := m.lock[K(k) := c])
  {
    hide Leads;
    e := StepSleep(s, c, m, p);
  }

  lemma DoAcqPass(s: St, c: nat, m: St, p: nat, k: nat) returns (e: St)
    requires Leads(s, c, m) && Here(m, c, p, AcqCheck(k)) && k < |m.locked| && !m.locked[k]
    ensures Leads(s, c, e) && e == m.(pc := m.pc[p := User], locked := m.locked[k := true], lock := m.lock - {K(k)})
  {
    hide Leads;
    e := StepGate(s, c, m, p, Next);
  }

  lemma DoAcqWait(s: St, c: nat, m: St, p: nat, k: nat) returns (e: St)
    requires Leads(s, c, m) && Here(m, c, p, AcqCheck(k)) && k < |m.locked| && m.locked[k]
    ensures Leads(s, c, e) && e == m.(pc := m.pc[p := Sleep1(SleepLock(k))])
  {
    hide Leads;
    e := StepGate(s, c, m, p, Next);
  }

  lemma DoRel0(s: St, c: nat, m: St, p: nat, k: nat) returns (e: St)
    requires Leads(s, c, m) && Here(m, c, p, User) && k < |m.locked|
    ensures Leads(s, c, e) && e == m.(pc := m.pc[p := RelEnter(k)])
  {
    hide Leads;
    e := StepUser(s, c, m, p, Release(k));
  }

  lemma DoRelEnter(s: St, c: nat, m: St, p: nat, k: nat) returns (e: St)
    requires Leads(s, c, m) && Here(m, c, p, RelEnter(k)) && K(k) !in m.lock
    ensures Leads(s, c, e) && e == m.(pc := m.pc[p := RelClear(k)], lock := m.lock[K(k) := c])
  {
    hide Leads;
    e := StepSleep(s, c, m, p);
  }

  lemma DoRelClear(s: St, c: nat, m: St, p: nat, k: nat) returns (e: St)
    requires Leads(s, c, m) && Here(m, c, p, RelClear(k)) && k < |m.locked|
    ensures Leads(s, c, e) && e == m.(pc := m.pc[p := Wake(SleepLock(k), 0, ToRelease(k))],
            locked := m.locked[k := false])
  {
    hide Leads;
    e := StepGate(s, c, m, p, Next);
  }

  lemma DoRelDone(s: St, c: nat, m: St, p: nat, k: nat) returns (e: St)
    requires Leads(s, c, m) && Here(m, c, p, RelDone(k))
    ensures Leads(s, c, e) && e == m.(pc := m.pc[p := User], lock := m.lock - {K(k)})
  {
    hide Leads;
    e := StepSleep(s, c, m, p);
  }

  lemma DoSleep1(s: St, c: nat, m: St, p: nat, ch: Chan) returns (e: St)
    requires Leads(s, c, m) && Here(m, c, p, Sleep1(ch)) && P(p) !in m.lock
    ensures Leads(s, c, e) && e == m.(pc := m.pc[p := Sleep2(ch)], lock := m.lock[P(p) := c])
  {
    hide Leads;
    e := StepSleep(s, c, m, p);
  }

  lemma DoSleep2(s: St, c: nat, m: St, p: nat, ch: Chan) returns (e: St)
    requires Leads(s, c, m) && Here(m, c, p, Sleep2(ch))
    ensures Leads(s, c, e) && e == m.(pc := m.pc[p := Sleep3(ch)], lock := m.lock - {Guard(ch)})
  {
    hide Leads;
    e := StepSleep(s, c, m, p);
  }

  lemma DoSleep3(s: St, c: nat, m: St, p: nat, ch: Chan) returns (e: St)
    requires Leads(s, c, m) && Here(m, c, p, Sleep3(ch))
    ensures Leads(s, c, e) && e == m.(pc := m.pc[p := Sched(Sleep4(ch))], chan := m.chan[p := ch],
            st := m.st[p := Sleeping])
  {
    hide Leads;
    e := StepSleep(s, c, m, p);
  }

  lemma DoSleep4(s: St, c: nat, m: St, p: nat, ch: Chan) returns (e: St)
    requires Leads(s, c, m) && Here(m, c, p, Sleep4(ch))
    ensures Leads(s, c, e) && e == m.(pc := m.pc[p := Sleep5(ch)], chan := m.chan[p := Nothing],
            lock := m.lock - {P(p)})
  {
    hide Leads;
    e := StepSleep(s, c, m, p);
  }

  lemma DoSleep5(s: St, c: nat, m: St, p: nat, ch: Chan) returns (e: St)
    requires Leads(s, c, m) && Here(m, c, p, Sleep5(ch)) && Guard(ch) !in m.lock
    ensures Leads(s, c, e) && e == m.(pc := m.pc[p := match ch case SleepLock(k) => AcqCheck(k) case _ => WaitScan(0,
            false)], lock := m.lock[Guard(ch) := c])
  {
    hide Leads;
    e := StepSleep(s, c, m, p);
  }

  lemma DoWakeEnd(s: St, c: nat, m: St, p: nat, ch: Chan, i: nat, t: Then) returns (e: St)
    requires Leads(s, c, m) && Here(m, c, p, Wake(ch, i, t)) && i >= |m.st|
    ensures Leads(s, c, e) && e == m.(pc := m.pc[p := AfterWake(t)])
  {
    hide Leads;
    e := StepSleep(s, c, m, p);
  }

  lemma DoWakeSelf(s: St, c: nat, m: St, p: nat, ch: Chan, i: nat, t: Then) returns (e: St)
    requires Leads(s, c, m) && Here(m, c, p, Wake(ch, i, t)) && i == p
    ensures Leads(s, c, e) && e == m.(pc := m.pc[p := Wake(ch, i + 1, t)])
  {
    hide Leads;
    e := StepSleep(s, c, m, p);
  }

  lemma DoWakeTake(s: St, c: nat, m: St, p: nat, ch: Chan, i: nat, t: Then) returns (e: St)
    requires Leads(s, c, m) && Here(m, c, p, Wake(ch, i, t)) && i != p && i < |m.st| && P(i) !in m.lock
    ensures Leads(s, c, e) && e == m.(pc := m.pc[p := WakeHold(ch, i, t)], lock := m.lock[P(i) := c])
  {
    hide Leads;
    e := StepSleep(s, c, m, p);
  }

  lemma DoWakeHold(s: St, c: nat, m: St, p: nat, ch: Chan, i: nat, t: Then) returns (e: St)
    requires Leads(s, c, m) && Here(m, c, p, WakeHold(ch, i, t)) && i < |m.st|
    ensures Leads(s, c, e) && e == m.(pc := m.pc[p := Wake(ch, i + 1, t)], st := if m.st[i] == Sleeping
            && m.chan[i] == ch then m.st[i := Runnable] else m.st, lock := m.lock - {P(i)})
  {
    hide Leads;
    e := StepSleep(s, c, m, p);
  }

  lemma DoExit0(s: St, c: nat, m: St, p: nat) returns (e: St)
    requires Leads(s, c, m) && Here(m, c, p, User) && p != 0
    ensures Leads(s, c, e) && e == m.(pc := m.pc[p := Exit1])
  {
    hide Leads;
    e := StepUser(s, c, m, p, Exit);
  }

  lemma DoExit1(s: St, c: nat, m: St, p: nat) returns (e: St)
    requires Leads(s, c, m) && Here(m, c, p, Exit1) && W !in m.lock
    ensures Leads(s, c, e) && e == m.(pc := m.pc[p := Reparent(0)], lock := m.lock[W := c])
  {
    hide Leads;
    e := StepExit(s, c, m, p);
  }

  lemma DoGive(s: St, c: nat, m: St, p: nat, j: nat) returns (e: St)
    requires Leads(s, c, m) && Here(m, c, p, Reparent(j)) && j < |m.parent| && m.parent[j] == Some(p)
    ensures Leads(s, c, e) && e == m.(pc := m.pc[p := Wake(WaitOf(0), 0, ToReparent(j + 1))],
            parent := m.parent[j := Some(0)])
  {
    hide Leads;
    e := StepExit(s, c, m, p);
  }

  lemma DoKeep(s: St, c: nat, m: St, p: nat, j: nat) returns (e: St)
    requires Leads(s, c, m) && Here(m, c, p, Reparent(j)) && j < |m.parent| && m.parent[j] != Some(p)
    ensures Leads(s, c, e) && e == m.(pc := m.pc[p := Reparent(j + 1)])
  {
    hide Leads;
    e := StepExit(s, c, m, p);
  }

  lemma DoGiven(s: St, c: nat, m: St, p: nat, j: nat, q: nat) returns (e: St)
    requires Leads(s, c, m) && Here(m, c, p, Reparent(j)) && j >= |m.parent| && m.parent[p] == Some(q)
    ensures Leads(s, c, e) && e == m.(pc := m.pc[p := Wake(WaitOf(q), 0, ToExit)])
  {
    hide Leads;
    e := StepExit(s, c, m, p);
  }

  lemma DoExitLock(s: St, c: nat, m: St, p: nat) returns (e: St)
    requires Leads(s, c, m) && Here(m, c, p, ExitLock) && P(p) !in m.lock
    ensures Leads(s, c, e) && e == m.(pc := m.pc[p := ExitSet], lock := m.lock[P(p) := c])
  {
    hide Leads;
    e := StepExit(s, c, m, p);
  }

  lemma DoExitSet(s: St, c: nat, m: St, p: nat) returns (e: St)
    requires Leads(s, c, m) && Here(m, c, p, ExitSet)
    ensures Leads(s, c, e) && e == m.(pc := m.pc[p := ExitRel], st := m.st[p := Zombie])
  {
    hide Leads;
    e := StepExit(s, c, m, p);
  }

  lemma DoExitRel(s: St, c: nat, m: St, p: nat) returns (e: St)
    requires Leads(s, c, m) && Here(m, c, p, ExitRel)
    ensures Leads(s, c, e) && e == m.(pc := m.pc[p := Sched(Dead)], lock := m.lock - {W})
  {
    hide Leads;
    e := StepExit(s, c, m, p);
  }

  lemma DoWait0(s: St, c: nat, m: St, p: nat) returns (e: St)
    requires Leads(s, c, m) && Here(m, c, p, User)
    ensures Leads(s, c, e) && e == m.(pc := m.pc[p := Wait1])
  {
    hide Leads;
    e := StepUser(s, c, m, p, Wait);
  }

  lemma DoWait1(s: St, c: nat, m: St, p: nat) returns (e: St)
    requires Leads(s, c, m) && Here(m, c, p, Wait1) && W !in m.lock
    ensures Leads(s, c, e) && e == m.(pc := m.pc[p := WaitScan(0, false)], lock := m.lock[W := c])
  {
    hide Leads;
    e := StepFamily(s, c, m, p, Next);
  }

  lemma DoWaitPass(s: St, c: nat, m: St, p: nat, i: nat, kids: bool) returns (e: St)
    requires Leads(s, c, m) && Here(m, c, p, WaitScan(i, kids)) && i < |m.parent| && m.parent[i] != Some(p)
    ensures Leads(s, c, e) && e == m.(pc := m.pc[p := WaitScan(i + 1, kids)])
  {
    hide Leads;
    e := StepFamily(s, c, m, p, Next);
  }

  lemma DoWaitLook(s: St, c: nat, m: St, p: nat, i: nat, kids: bool) returns (e: St)
    requires Leads(s, c, m) && Here(m, c, p, WaitScan(i, kids)) && i < |m.parent| && m.parent[i] == Some(p)
             && P(i) !in m.lock
    ensures Leads(s, c, e) && e == m.(pc := m.pc[p := WaitChild(i)], lock := m.lock[P(i) := c])
  {
    hide Leads;
    e := StepFamily(s, c, m, p, Next);
  }

  lemma DoWaitSleep(s: St, c: nat, m: St, p: nat, i: nat, kids: bool) returns (e: St)
    requires Leads(s, c, m) && Here(m, c, p, WaitScan(i, kids)) && i >= |m.parent| && kids
    ensures Leads(s, c, e) && e == m.(pc := m.pc[p := Sleep1(WaitOf(p))])
  {
    hide Leads;
    e := StepFamily(s, c, m, p, Next);
  }

  lemma DoWaitNone(s: St, c: nat, m: St, p: nat, i: nat, kids: bool) returns (e: St)
    requires Leads(s, c, m) && Here(m, c, p, WaitScan(i, kids)) && i >= |m.parent| && !kids
    ensures Leads(s, c, e) && e == m.(pc := m.pc[p := WaitOut])
  {
    hide Leads;
    e := StepFamily(s, c, m, p, Next);
  }

  lemma DoWaitOn(s: St, c: nat, m: St, p: nat, i: nat) returns (e: St)
    requires Leads(s, c, m) && Here(m, c, p, WaitChild(i)) && i < |m.st| && m.st[i] != Zombie
    ensures Leads(s, c, e) && e == m.(pc := m.pc[p := WaitScan(i + 1, true)], lock := m.lock - {P(i)})
  {
    hide Leads;
    e := StepFamily(s, c, m, p, Next);
  }

  lemma DoWaitReap(s: St, c: nat, m: St, p: nat, i: nat) returns (e: St)
    requires Leads(s, c, m) && Here(m, c, p, WaitChild(i)) && i < |m.st| && m.st[i] == Zombie
    ensures Leads(s, c, e) && e == m.(pc := m.pc[p := WaitOut], st := m.st[i := Unused], chan := m.chan[i := Nothing],
            parent := m.parent[i := None], lock := m.lock - {P(i)})
  {
    hide Leads;
    e := StepFamily(s, c, m, p, Next);
  }

  lemma DoWaitOut(s: St, c: nat, m: St, p: nat) returns (e: St)
    requires Leads(s, c, m) && Here(m, c, p, WaitOut)
    ensures Leads(s, c, e) && e == m.(pc := m.pc[p := User], lock := m.lock - {W})
  {
    hide Leads;
    e := StepFamily(s, c, m, p, Next);
  }

  lemma DoFork0(s: St, c: nat, m: St, p: nat, i: nat) returns (e: St)
    requires Leads(s, c, m) && Here(m, c, p, User) && i < |m.st|
    ensures Leads(s, c, e) && e == m.(pc := m.pc[p := Fork1(i)])
  {
    hide Leads;
    e := StepUser(s, c, m, p, Fork(i));
  }

  lemma DoFork1(s: St, c: nat, m: St, p: nat, i: nat) returns (e: St)
    requires Leads(s, c, m) && Here(m, c, p, Fork1(i)) && P(i) !in m.lock
    ensures Leads(s, c, e) && e == m.(pc := m.pc[p := Fork2(i)], lock := m.lock[P(i) := c])
  {
    hide Leads;
    e := StepFamily(s, c, m, p, Next);
  }

  lemma DoFork2(s: St, c: nat, m: St, p: nat, i: nat) returns (e: St)
    requires Leads(s, c, m) && Here(m, c, p, Fork2(i)) && i < |m.st| && m.st[i] == Unused
    ensures Leads(s, c, e) && e == m.(pc := m.pc[p := Fork3(i)], st := m.st[i := Used])
  {
    hide Leads;
    e := StepFamily(s, c, m, p, Next);
  }

  lemma DoFork3(s: St, c: nat, m: St, p: nat, i: nat) returns (e: St)
    requires Leads(s, c, m) && Here(m, c, p, Fork3(i))
    ensures Leads(s, c, e) && e == m.(pc := m.pc[p := Fork4(i)], lock := m.lock - {P(i)})
  {
    hide Leads;
    e := StepFamily(s, c, m, p, Next);
  }

  lemma DoFork4(s: St, c: nat, m: St, p: nat, i: nat) returns (e: St)
    requires Leads(s, c, m) && Here(m, c, p, Fork4(i)) && W !in m.lock
    ensures Leads(s, c, e) && e == m.(pc := m.pc[p := Fork5(i)], lock := m.lock[W := c])
  {
    hide Leads;
    e := StepFamily(s, c, m, p, Next);
  }

  lemma DoFork5(s: St, c: nat, m: St, p: nat, i: nat) returns (e: St)
    requires Leads(s, c, m) && Here(m, c, p, Fork5(i)) && i < |m.st|
    ensures Leads(s, c, e) && e == m.(pc := m.pc[p := Fork6(i)], parent := m.parent[i := Some(p)], lock := m.lock - {W})
  {
    hide Leads;
    e := StepFamily(s, c, m, p, Next);
  }

  lemma DoFork6(s: St, c: nat, m: St, p: nat, i: nat) returns (e: St)
    requires Leads(s, c, m) && Here(m, c, p, Fork6(i)) && P(i) !in m.lock
    ensures Leads(s, c, e) && e == m.(pc := m.pc[p := Fork7(i)], lock := m.lock[P(i) := c])
  {
    hide Leads;
    e := StepFamily(s, c, m, p, Next);
  }

  lemma DoFork7(s: St, c: nat, m: St, p: nat, i: nat) returns (e: St)
    requires Leads(s, c, m) && Here(m, c, p, Fork7(i)) && i < |m.st| && i != p
    ensures Leads(s, c, e)
    ensures e == m.(pc := m.pc[i := ForkRet][p := User], st := m.st[i := Runnable], lock := m.lock - {P(i)})
  {
    hide Leads;
    e := StepFamily(s, c, m, p, Next);
  }

  lemma DoBack(s: St, c: nat, m: St, p: nat) returns (e: St)
    requires Leads(s, c, m) && Shape(m) && c < |m.cpu| && m.cpu[c] == Back(p)
    ensures Leads(s, c, e)
    ensures e == m.(cpu := m.cpu[c := Scan(p + 1)], cproc := m.cproc[c := None], lock := m.lock - {P(p)})
  {
    hide Leads;
    e := StepSched(s, c, m);
  }

  // ----- parts of calls -----

  lemma SetTwice<T>(s: seq<T>, i: nat, a: T, b: T)
    requires i < |s|
    ensures s[i := a][i := b] == s[i := b]
  {
  }

  lemma SetSame<T>(s: seq<T>, i: nat, a: T)
    requires i < |s|
    ensures s[i := a][i := s[i]] == s
  {
  }

  lemma TakenAndLeft(held: map<Lock, nat>, l: Lock, c: nat)
    requires l !in held
    ensures held[l := c] - {l} == held
  {
  }

  lemma LeftBoth(held: map<Lock, nat>, g: Lock, l: Lock, c: nat)
    requires l !in held && g != l
    ensures held[l := c] - {g} - {l} == held - {g}
  {
  }

  /** sched(), and the rest of the scheduler's round: the CPU goes on with the next process. */
  lemma SwitchOut(s: St, c: nat, m: St, p: nat, next: Pc) returns (e: St)
    requires Leads(s, c, m) && Here(m, c, p, Sched(next))
    ensures Leads(s, c, e)
    ensures e == m.(pc := m.pc[p := next], cpu := m.cpu[c := Scan(p + 1)], cproc := m.cproc[c := None],
                    on := m.on[p := None], lock := m.lock - {P(p)})
  {
    hide Leads;
    e := DoSched(s, c, m, p, next);
    e := DoBack(s, c, e, p);
    assert e.cpu == m.cpu[c := Scan(p + 1)];
  }

  /** sleep(): the guard is released and the process sleeps. */
  lemma FallAsleep(s: St, c: nat, m: St, p: nat, ch: Chan) returns (e: St)
    requires Leads(s, c, m) && Here(m, c, p, Sleep1(ch)) && P(p) !in m.lock && Guard(ch) != P(p)
    ensures Leads(s, c, e)
    ensures e == m.(st := m.st[p := Sleeping], chan := m.chan[p := ch], pc := m.pc[p := Sleep4(ch)],
                    cpu := m.cpu[c := Scan(p + 1)], cproc := m.cproc[c := None], on := m.on[p := None],
                    lock := m.lock - {Guard(ch)})
  {
    hide Leads;
    e := ToSleep(s, c, m, p, ch);
    e := SwitchOut(s, c, e, p, Sleep4(ch));
    SetTwice(m.pc, p, Sched(Sleep4(ch)), Sleep4(ch));
    LeftBoth(m.lock, Guard(ch), P(p), c);
  }

  lemma ToSleep(s: St, c: nat, m: St, p: nat, ch: Chan) returns (e: St)
    requires Leads(s, c, m) && Here(m, c, p, Sleep1(ch)) && P(p) !in m.lock
    ensures Leads(s, c, e)
    ensures e == m.(st := m.st[p := Sleeping], chan := m.chan[p := ch], pc := m.pc[p := Sched(Sleep4(ch))],
                    lock := m.lock[P(p) := c] - {Guard(ch)})
  {
    hide Leads, Guard;
    e := DoSleep1(s, c, m, p, ch);
    e := DoSleep2(s, c, e, p, ch);
    SetTwice(m.pc, p, Sleep2(ch), Sleep3(ch));
    e := DoSleep3(s, c, e, p, ch);
    SetTwice(m.pc, p, Sleep3(ch), Sched(Sleep4(ch)));
  }

  /** Who sleeps on ch, from process i on, is RUNNABLE; p itself is the one who wakes them. */
  function Roused(st: seq<PState>, chan: seq<Chan>, ch: Chan, p: nat, i: nat): (r: seq<PState>)
    requires |chan| == |st|
    ensures |r| == |st|
  {
    seq(|st|, j requires 0 <= j < |st| =>
      if j >= i && j != p && st[j] == Sleeping && chan[j] == ch then Runnable else st[j])
  }

  lemma {:induction false} WakeAll(s: St, c: nat, m: St, p: nat, ch: Chan, i: nat, t: Then) returns (e: St)
    requires Leads(s, c, m) && Here(m, c, p, Wake(ch, i, t)) && Unheld(m)
    ensures Leads(s, c, e) && e == m.(st := Roused(m.st, m.chan, ch, p, i), pc := m.pc[p := AfterWake(t)])
    decreases |m.st| - i
  {
    hide Leads;
    if i >= |m.st| {
      e := DoWakeEnd(s, c, m, p, ch, i, t);
      assert Roused(m.st, m.chan, ch, p, i) == m.st;
    } else {
      var n := WakeOne(s, c, m, p, ch, i, t);
      e := WakeAll(s, c, n, p, ch, i + 1, t);
      assert e.st == Roused(m.st, m.chan, ch, p, i);
      assert e.pc == m.pc[p := AfterWake(t)];
    }
  }

  lemma WakeOne(s: St, c: nat, m: St, p: nat, ch: Chan, i: nat, t: Then) returns (e: St)
    requires Leads(s, c, m) && Here(m, c, p, Wake(ch, i, t)) && Unheld(m) && i < |m.st|
    ensures Leads(s, c, e)
    ensures e == m.(st := if i != p && m.st[i] == Sleeping && m.chan[i] == ch then m.st[i := Runnable] else m.st,
                    pc := m.pc[p := Wake(ch, i + 1, t)])
  {
    hide Leads;
    if i == p {
      e := DoWakeSelf(s, c, m, p, ch, i, t);
    } else {
      e := DoWakeTake(s, c, m, p, ch, i, t);
      e := DoWakeHold(s, c, e, p, ch, i, t);
      assert e.lock == m.lock && e.pc == m.pc[p := Wake(ch, i + 1, t)];
    }
  }

  // ----- the calls -----

  /** kill: a process that sleeps is RUNNABLE again, and nothing else changes. */
  lemma KillRun(s: St, c: nat, p: nat, i: nat)
    requires Here(s, c, p, User) && i < |s.st| && P(i) !in s.lock
    ensures Leads(s, c, s.(st := if s.st[i] == Sleeping then s.st[i := Runnable] else s.st))
  {
    hide Leads;
    LeadsNone(s, c);
    var m := DoKill0(s, c, s, p, i);
    m := DoKill1(s, c, m, p, i);
    m := DoKill2(s, c, m, p, i);
    assert m.lock == s.lock && m.pc == s.pc;
  }

  /** yield: the process is RUNNABLE and its CPU goes on with the next one. */
  lemma YieldRun(s: St, c: nat, p: nat)
    requires Here(s, c, p, User) && P(p) !in s.lock
    ensures Leads(s, c, s.(st := s.st[p := Runnable], pc := s.pc[p := YieldR], cpu := s.cpu[c := Scan(p + 1)],
                           cproc := s.cproc[c := None], on := s.on[p := None]))
  {
    hide Leads;
    LeadsNone(s, c);
    var m := DoYield0(s, c, s, p);
    m := DoYield1(s, c, m, p);
    m := DoYield2(s, c, m, p);
    m := SwitchOut(s, c, m, p, YieldR);
    assert m.lock == s.lock && m.pc == s.pc[p := YieldR];
  }

  /** acquiresleep: a lock that is free is taken; otherwise the process sleeps on it. */
  lemma AcquireRun(s: St, c: nat, p: nat, k: nat)
    requires Here(s, c, p, User) && k < |s.locked| && K(k) !in s.lock && P(p) !in s.lock
    ensures Leads(s, c, if !s.locked[k] then s.(locked := s.locked[k := true])
                        else s.(st := s.st[p := Sleeping], chan := s.chan[p := SleepLock(k)],
                                pc := s.pc[p := Sleep4(SleepLock(k))], cpu := s.cpu[c := Scan(p + 1)],
                                cproc := s.cproc[c := None], on := s.on[p := None]))
  {
    hide Leads;
    LeadsNone(s, c);
    var m := DoAcq0(s, c, s, p, k);
    m := DoAcqEnter(s, c, m, p, k);
    SetTwice(s.pc, p, AcqEnter(k), m.pc[p]);
    TakenAndLeft(s.lock, K(k), c);
    if s.locked[k] {
      m := DoAcqWait(s, c, m, p, k);
      SetTwice(s.pc, p, AcqCheck(k), m.pc[p]);
      m := FallAsleep(s, c, m, p, SleepLock(k));
      SetTwice(s.pc, p, Sleep1(SleepLock(k)), m.pc[p]);
    } else {
      m := DoAcqPass(s, c, m, p, k);
      SetSame(s.pc, p, AcqCheck(k));
    }
  }

  /** releasesleep: the lock is free and all who slept on it are RUNNABLE. */
  lemma ReleaseRun(s: St, c: nat, p: nat, k: nat)
    requires Here(s, c, p, User) && k < |s.locked| && K(k) !in s.lock && Unheld(s)
    ensures Leads(s, c, s.(locked := s.locked[k := false], st := Roused(s.st, s.chan, SleepLock(k), p, 0)))
  {
    hide Leads, Roused;
    LeadsNone(s, c);
    var m := DoRel0(s, c, s, p, k);
    m := DoRelEnter(s, c, m, p, k);
    m := DoRelClear(s, c, m, p, k);
    m := WakeAll(s, c, m, p, SleepLock(k), 0, ToRelease(k));
    m := DoRelDone(s, c, m, p, k);
    assert m.lock == s.lock && m.pc == s.pc;
  }

  /** fork: a free slot becomes a RUNNABLE child of p. */
  lemma ForkRun(s: St, c: nat, p: nat, i: nat)
    requires Here(s, c, p, User) && i < |s.st| && i != p && s.st[i] == Unused && P(i) !in s.lock && W !in s.lock
    ensures Leads(s, c, s.(st := s.st[i := Runnable], parent := s.parent[i := Some(p)], pc := s.pc[i := ForkRet]))
  {
    hide Leads;
    var m := ForkStart(s, c, p, i);
    m := ForkRest(s, c, m, p, i);
    SetTwice(s.st, i, Used, Runnable);
    assert m.pc == s.pc[i := ForkRet];
  }

  lemma ForkStart(s: St, c: nat, p: nat, i: nat) returns (e: St)
    requires Here(s, c, p, User) && i < |s.st| && s.st[i] == Unused && P(i) !in s.lock
    ensures Leads(s, c, e) && e == s.(st := s.st[i := Used], pc := s.pc[p := Fork4(i)])
  {
    hide Leads;
    LeadsNone(s, c);
    e := DoFork0(s, c, s, p, i);
    e := DoFork1(s, c, e, p, i);
    SetTwice(s.pc, p, Fork1(i), Fork2(i));
    e := DoFork2(s, c, e, p, i);
    SetTwice(s.pc, p, Fork2(i), Fork3(i));
    e := DoFork3(s, c, e, p, i);
    SetTwice(s.pc, p, Fork3(i), Fork4(i));
    TakenAndLeft(s.lock, P(i), c);
  }

  lemma ForkParent(s: St, c: nat, m: St, p: nat, i: nat) returns (e: St)
    requires Leads(s, c, m) && Here(m, c, p, Fork4(i)) && i < |m.st| && W !in m.lock
    ensures Leads(s, c, e) && e == m.(parent := m.parent[i := Some(p)], pc := m.pc[p := Fork6(i)])
  {
    hide Leads;
    e := DoFork4(s, c, m, p, i);
    e := DoFork5(s, c, e, p, i);
    TakenAndLeft(m.lock, W, c);
    SetTwice(m.pc, p, Fork5(i), Fork6(i));
  }

  lemma ForkRest(s: St, c: nat, m: St, p: nat, i: nat) returns (e: St)
    requires Leads(s, c, m) && Here(m, c, p, Fork4(i)) && i < |m.st| && i != p && P(i) !in m.lock && W !in m.lock
    ensures Leads(s, c, e)
    ensures e == m.(st := m.st[i := Runnable], parent := m.parent[i := Some(p)], pc := m.pc[i := ForkRet][p := User])
  {
    hide Leads;
    e := ForkParent(s, c, m, p, i);
    e := DoFork6(s, c, e, p, i);
    SetTwice(m.pc, p, Fork6(i), Fork7(i));
    e := DoFork7(s, c, e, p, i);
    TakenAndLeft(m.lock, P(i), c);
    assert e.pc == m.pc[i := ForkRet][p := User];
  }

  // ----- exit -----

  /** The children of p, from process j on, are init's. */
  function GivenAway(parent: seq<Option<nat>>, p: nat, j: nat): (r: seq<Option<nat>>)
    ensures |r| == |parent|
  {
    seq(|parent|, k requires 0 <= k < |parent| => if k >= j && parent[k] == Some(p) then Some(0) else parent[k])
  }

  predicate HasChild(parent: seq<Option<nat>>, p: nat, j: nat) {
    exists k :: j <= k < |parent| && parent[k] == Some(p)
  }

  lemma {:induction false} GiveAll(s: St, c: nat, m: St, p: nat, j: nat) returns (e: St)
    requires Leads(s, c, m) && Here(m, c, p, Reparent(j)) && Unheld(m) && p != 0 && j <= |m.parent|
    ensures Leads(s, c, e)
    ensures e == m.(parent := GivenAway(m.parent, p, j), pc := m.pc[p := Reparent(|m.parent|)],
                    st := if HasChild(m.parent, p, j) then Roused(m.st, m.chan, WaitOf(0), p, 0) else m.st)
    decreases |m.parent| - j
  {
    hide Leads, Roused, GivenAway, HasChild;
    if j == |m.parent| {
      e := m;
      NoneLeft(m.parent, p);
      SetSame(m.pc, p, Reparent(j));
    } else {
      var n := GiveOne(s, c, m, p, j);
      e := GiveAll(s, c, n, p, j + 1);
      GivenOne(m.parent, p, j);
      RousedTwice(m.st, m.chan, WaitOf(0), p);
      SetTwice(m.pc, p, Reparent(j + 1), Reparent(|m.parent|));
    }
  }

  function AfterOne(parent: seq<Option<nat>>, p: nat, j: nat): (r: seq<Option<nat>>)
    requires j < |parent|
    ensures |r| == |parent|
  {
    if parent[j] == Some(p) then parent[j := Some(0)] else parent
  }

  lemma GivenOne(parent: seq<Option<nat>>, p: nat, j: nat)
    requires j < |parent| && p != 0
    ensures GivenAway(AfterOne(parent, p, j), p, j + 1) == GivenAway(parent, p, j)
    ensures HasChild(parent, p, j) <==> parent[j] == Some(p) || HasChild(AfterOne(parent, p, j), p, j + 1)
  {
  }

  lemma NoneLeft(parent: seq<Option<nat>>, p: nat)
    ensures GivenAway(parent, p, |parent|) == parent && !HasChild(parent, p, |parent|)
  {
  }

  lemma GiveOne(s: St, c: nat, m: St, p: nat, j: nat) returns (e: St)
    requires Leads(s, c, m) && Here(m, c, p, Reparent(j)) && Unheld(m) && j < |m.parent|
    ensures Leads(s, c, e)
    ensures e == m.(parent := AfterOne(m.parent, p, j), pc := m.pc[p := Reparent(j + 1)],
                    st := if m.parent[j] == Some(p) then Roused(m.st, m.chan, WaitOf(0), p, 0) else m.st)
  {
    hide Leads, Roused;
    if m.parent[j] == Some(p) {
      e := DoGive(s, c, m, p, j);
      e := WakeAll(s, c, e, p, WaitOf(0), 0, ToReparent(j + 1));
      SetTwice(m.pc, p, Wake(WaitOf(0), 0, ToReparent(j + 1)), Reparent(j + 1));
    } else {
      e := DoKeep(s, c, m, p, j);
    }
  }

  lemma RousedTwice(st: seq<PState>, chan: seq<Chan>, ch: Chan, p: nat)
    requires |chan| == |st|
    ensures Roused(Roused(st, chan, ch, p, 0), chan, ch, p, 0) == Roused(st, chan, ch, p, 0)
  {
  }

  /** The state when p, whose parent is q, has exited: its children are init's, and init, if there are any, and q
      are awake. */
  function Exited(s: St, c: nat, p: nat, q: nat): St
    requires Shape(s) && c < |s.cpu| && p < |s.st|
  {
    var st := if HasChild(s.parent, p, 0) then Roused(s.st, s.chan, WaitOf(0), p, 0) else s.st;
    s.(st := Roused(st, s.chan, WaitOf(q), p, 0)[p := Zombie], parent := GivenAway(s.parent, p, 0),
       pc := s.pc[p := Dead], cpu := s.cpu[c := Scan(p + 1)], cproc := s.cproc[c := None], on := s.on[p := None])
  }

  lemma ExitRun(s: St, c: nat, p: nat, q: nat)
    requires Here(s, c, p, User) && p != 0 && s.parent[p] == Some(q) && q != p && Unheld(s) && W !in s.lock
    ensures Leads(s, c, Exited(s, c, p, q))
  {
    hide Leads, Roused, HasChild;
    LeadsNone(s, c);
    var m := DoExit0(s, c, s, p);
    m := DoExit1(s, c, m, p);
    SetTwice(s.pc, p, Exit1, Reparent(0));
    m := GiveAll(s, c, m, p, 0);
    SetTwice(s.pc, p, Reparent(0), m.pc[p]);
    m := ExitWake(s, c, m, p, q);
    SetTwice(s.pc, p, Reparent(|s.parent|), ExitLock);
    m := ExitEnd(s, c, m, p);
    SetTwice(s.pc, p, ExitLock, Dead);
    TakenAndLeft(s.lock, W, c);
  }

  lemma ExitWake(s: St, c: nat, m: St, p: nat, q: nat) returns (e: St)
    requires Leads(s, c, m) && Here(m, c, p, Reparent(|m.parent|)) && Unheld(m) && m.parent[p] == Some(q)
    ensures Leads(s, c, e) && e == m.(st := Roused(m.st, m.chan, WaitOf(q), p, 0), pc := m.pc[p := ExitLock])
  {
    hide Leads, Roused;
    e := DoGiven(s, c, m, p, |m.parent|, q);
    e := WakeAll(s, c, e, p, WaitOf(q), 0, ToExit);
    SetTwice(m.pc, p, Wake(WaitOf(q), 0, ToExit), ExitLock);
  }

  lemma ExitEnd(s: St, c: nat, m: St, p: nat) returns (e: St)
    requires Leads(s, c, m) && Here(m, c, p, ExitLock) && P(p) !in m.lock
    ensures Leads(s, c, e)
    ensures e == m.(st := m.st[p := Zombie], pc := m.pc[p := Dead], cpu := m.cpu[c := Scan(p + 1)],
                    cproc := m.cproc[c := None], on := m.on[p := None], lock := m.lock - {W})
  {
    hide Leads;
    e := DoExitLock(s, c, m, p);
    e := DoExitSet(s, c, e, p);
    SetTwice(m.pc, p, ExitSet, ExitRel);
    e := DoExitRel(s, c, e, p);
    SetTwice(m.pc, p, ExitRel, Sched(Dead));
    e := SwitchOut(s, c, e, p, Dead);
    SetTwice(m.pc, p, Sched(Dead), Dead);
    assert e.lock == m.lock - {W};
  }

  // ----- wait -----

  /** p has no zombie child among the processes [i, j). */
  predicate NoZombie(s: St, p: nat, i: nat, j: nat)
    requires Shape(s)
  {
    forall z :: i <= z < j && z < |s.st| ==> !(s.parent[z] == Some(p) && s.st[z] == Zombie)
  }

  predicate AnyChild(s: St, p: nat, i: nat, j: nat)
    requires Shape(s)
  {
    exists z :: i <= z < j && z < |s.st| && s.parent[z] == Some(p)
  }

  lemma {:induction false} LookOn(s: St, c: nat, m: St, p: nat, i: nat, kids: bool, j: nat) returns (e: St)
    requires Leads(s, c, m) && Here(m, c, p, WaitScan(i, kids)) && Unheld(m) && i <= j <= |m.st| && NoZombie(m, p, i, j)
    ensures Leads(s, c, e) && e == m.(pc := m.pc[p := WaitScan(j, kids || AnyChild(m, p, i, j))])
    decreases j - i
  {
    hide Leads;
    if i == j {
      e := m;
      assert m.pc[p := WaitScan(j, kids)] == m.pc;
    } else {
      var n := LookAt(s, c, m, p, i, kids);
      e := LookOn(s, c, n, p, i + 1, kids || m.parent[i] == Some(p), j);
      assert AnyChild(m, p, i, j) <==> m.parent[i] == Some(p) || AnyChild(n, p, i + 1, j);
      assert e.pc == m.pc[p := WaitScan(j, kids || AnyChild(m, p, i, j))];
    }
  }

  lemma LookAt(s: St, c: nat, m: St, p: nat, i: nat, kids: bool) returns (e: St)
    requires Leads(s, c, m) && Here(m, c, p, WaitScan(i, kids)) && Unheld(m) && i < |m.st|
    requires !(m.parent[i] == Some(p) && m.st[i] == Zombie)
    ensures Leads(s, c, e) && e == m.(pc := m.pc[p := WaitScan(i + 1, kids || m.parent[i] == Some(p))])
  {
    hide Leads;
    if m.parent[i] == Some(p) {
      e := DoWaitLook(s, c, m, p, i, kids);
      e := DoWaitOn(s, c, e, p, i);
      assert e.lock == m.lock && e.pc == m.pc[p := WaitScan(i + 1, true)];
    } else {
      e := DoWaitPass(s, c, m, p, i, kids);
    }
  }

  /** wait, from the start of its scan with wait_lock held: z is the first zombie child, and is reaped. */
  lemma ReapFrom(s: St, c: nat, m: St, p: nat, z: nat) returns (e: St)
    requires Leads(s, c, m) && Here(m, c, p, WaitScan(0, false)) && Unheld(m)
    requires z < |m.st| && m.parent[z] == Some(p) && m.st[z] == Zombie && NoZombie(m, p, 0, z)
    ensures Leads(s, c, e)
    ensures e == m.(st := m.st[z := Unused], chan := m.chan[z := Nothing], parent := m.parent[z := None],
                    pc := m.pc[p := User], lock := m.lock - {W})
  {
    hide Leads, NoZombie, AnyChild;
    e := LookOn(s, c, m, p, 0, false, z);
    e := DoWaitLook(s, c, e, p, z, AnyChild(m, p, 0, z));
    SetTwice(m.pc, p, WaitScan(z, AnyChild(m, p, 0, z)), WaitChild(z));
    e := DoWaitReap(s, c, e, p, z);
    SetTwice(m.pc, p, WaitChild(z), WaitOut);
    TakenAndLeft(m.lock, P(z), c);
    e := DoWaitOut(s, c, e, p);
    SetTwice(m.pc, p, WaitOut, User);
  }

  /** wait with a zombie child: the first one is reaped, and its slot is free. */
  lemma WaitReaps(s: St, c: nat, p: nat, z: nat)
    requires Here(s, c, p, User) && Unheld(s) && W !in s.lock
    requires z < |s.st| && s.parent[z] == Some(p) && s.st[z] == Zombie && NoZombie(s, p, 0, z)
    ensures Leads(s, c, s.(st := s.st[z := Unused], chan := s.chan[z := Nothing], parent := s.parent[z := None]))
  {
    hide Leads;
    LeadsNone(s, c);
    var m := DoWait0(s, c, s, p);
    m := DoWait1(s, c, m, p);
    m := ReapFrom(s, c, m, p, z);
    assert m.lock == s.lock && m.pc == s.pc;
  }

  /** wait with no zombie child: the process sleeps if it has children, and goes on if it has none. */
  lemma WaitRun(s: St, c: nat, p: nat)
    requires Here(s, c, p, User) && Unheld(s) && W !in s.lock && NoZombie(s, p, 0, |s.st|)
    ensures Leads(s, c, if !AnyChild(s, p, 0, |s.st|) then s
                        else s.(st := s.st[p := Sleeping], chan := s.chan[p := WaitOf(p)],
                                pc := s.pc[p := Sleep4(WaitOf(p))], cpu := s.cpu[c := Scan(p + 1)],
                                cproc := s.cproc[c := None], on := s.on[p := None]))
  {
    hide Leads, NoZombie, AnyChild;
    var kids := AnyChild(s, p, 0, |s.st|);
    var m := LookedAll(s, c, p);
    TakenAndLeft(s.lock, W, c);
    if kids {
      m := DoWaitSleep(s, c, m, p, |m.st|, kids);
      SetTwice(s.pc, p, WaitScan(|s.st|, kids), Sleep1(WaitOf(p)));
      m := FallAsleep(s, c, m, p, WaitOf(p));
      SetTwice(s.pc, p, Sleep1(WaitOf(p)), Sleep4(WaitOf(p)));
    } else {
      m := DoWaitNone(s, c, m, p, |m.st|, kids);
      SetTwice(s.pc, p, WaitScan(|s.st|, kids), WaitOut);
      m := DoWaitOut(s, c, m, p);
      SetSame(s.pc, p, WaitOut);
    }
  }

  lemma LookedAll(s: St, c: nat, p: nat) returns (e: St)
    requires Here(s, c, p, User) && Unheld(s) && W !in s.lock && NoZombie(s, p, 0, |s.st|)
    ensures Leads(s, c, e)
    ensures e == s.(pc := s.pc[p := WaitScan(|s.st|, AnyChild(s, p, 0, |s.st|))], lock := s.lock[W := c])
  {
    hide Leads, NoZombie, AnyChild;
    LeadsNone(s, c);
    e := DoWait0(s, c, s, p);
    e := DoWait1(s, c, e, p);
    SetTwice(s.pc, p, Wait1, WaitScan(0, false));
    SameKids(s, e, p);
    e := LookOn(s, c, e, p, 0, false, |e.st|);
    SetTwice(s.pc, p, WaitScan(0, false), WaitScan(|s.st|, AnyChild(s, p, 0, |s.st|)));
  }

  lemma SameKids(s: St, m: St, p: nat)
    requires Shape(s) && Shape(m) && m.st == s.st && m.parent == s.parent
    ensures NoZombie(m, p, 0, |m.st|) <==> NoZombie(s, p, 0, |s.st|)
    ensures AnyChild(m, p, 0, |m.st|) <==> AnyChild(s, p, 0, |s.st|)
  {
  }

  // ----- resuming -----

  /** A process that was dispatched goes on in user space. */
  lemma ResumeRun(s: St, c: nat, p: nat)
    requires Here(s, c, p, YieldR) || Here(s, c, p, ForkRet)
    ensures Leads(s, c, s.(pc := s.pc[p := User], lock := s.lock - {P(p)}))
  {
    hide Leads;
    LeadsNone(s, c);
    var m := DoResume(s, c, s, p, s.pc[p]);
  }

  /** A process woken in wait looks at its children again, and reaps the first zombie. */
  lemma WokenReaps(s: St, c: nat, p: nat, z: nat)
    requires Here(s, c, p, Sleep4(WaitOf(p))) && W !in s.lock && forall i: nat :: i != p ==> P(i) !in s.lock
    requires z < |s.st| && s.parent[z] == Some(p) && s.st[z] == Zombie && NoZombie(s, p, 0, z) && z != p
    ensures Leads(s, c, s.(st := s.st[z := Unused], chan := s.chan[p := Nothing][z := Nothing],
                           parent := s.parent[z := None], pc := s.pc[p := User], lock := s.lock - {P(p)}))
  {
    hide Leads;
    LeadsNone(s, c);
    var m := DoSleep4(s, c, s, p, WaitOf(p));
    m := DoSleep5(s, c, m, p, WaitOf(p));
    m := ReapFrom(s, c, m, p, z);
    assert m.lock == s.lock - {P(p)} && m.pc == s.pc[p := User];
  }
}
