/** Every step keeps the invariant, so every run does; and what follows for runs. */
module ProcsRuns {
  import opened Options
  import opened Procs
  import opened ProcsInv
  import opened ProcsMoves
  import opened ProcsData

  ghost predicate OnCpu(s: St, c: nat, p: nat) {
    Inv(s) && c < |s.cpu| && s.cpu[c] == Run(p) && p < |s.st|
  }

  /** A control point that promises nothing about other processes. */
  predicate Plain(pc: Pc) {
    && PlainPc(pc) && !pc.Sleep3? && !pc.WaitScan? && !pc.WaitChild? && !pc.ExitLock? && !pc.ExitSet? && !pc.Reparent?
    && !((pc.Sleep1? || pc.Sleep2?) && pc.ch.WaitOf?)
    && !((pc.Wake? || pc.WakeHold?) && !pc.then_.ToRelease?)
    && !pc.Fork3? && !pc.Fork4? && !pc.Fork5? && !pc.Fork6? && !pc.Fork7?
  }

  lemma PlainMove(s: St, c: nat, p: nat, pc: Pc, op: LockOp)
    requires OnCpu(s, c, p) && LocksMatch(s, p, pc, op) && Plain(pc) && PlainPc(s.pc[p]) && PcAt(At(s, p, pc), p)
    requires !s.pc[p].Wake? && !s.pc[p].WakeHold?
    ensures Inv(Move(s, c, p, pc, op))
  {
    hide LocksMatch, PcAt, Inv;
    assert Inv(s) && Shape(s) by { InvShape(s); }
    assert WakesDone(s, p, pc);
    assert Promises(s, p, pc);
    MoveInv(s, c, p, pc, op);
  }

  /** A thread releases its only lock and is done. */
  lemma ToUser(s: St, c: nat, p: nat, l: Lock)
    requires OnCpu(s, c, p) && Held(s.pc[p], p) == {l} && PlainPc(s.pc[p]) && !s.pc[p].Wake? && !s.pc[p].WakeHold?
    requires Shape(s) && PcAt(s, p)
    ensures Inv(Rel(At(s, p, User), l))
  {
    hide Inv;
    UserPc(s, p);
    PlainMove(s, c, p, User, Drop(l));
  }

  lemma UserPc(s: St, p: nat)
    requires Shape(s) && PcAt(s, p) && p < |s.st|
    ensures PcAt(At(s, p, User), p)
  {
  }

  lemma InvShape(s: St)
    requires Inv(s)
    ensures Shape(s)
  {
  }

  lemma PcGive(s: St, p: nat)
    requires Inv(s)
    ensures Shape(s) && PcAt(s, p) && ProcAt(s, p) && ParentAt(s, p)
  {
  }

  // ----- acquiresleep and releasesleep -----

  lemma AcqStep(s: St, c: nat, p: nat)
    requires OnCpu(s, c, p) && (s.pc[p].AcqEnter? || s.pc[p].RelEnter?)
    requires Wants(s, p).Some? ==> Free(s, Wants(s, p).value)
    ensures Shape(s) && Inv(SleepStep(s, c, p))
  {
    hide Inv, ProcAt, ParentAt;
    PcGive(s, p);
    PlainMove(s, c, p, if s.pc[p].AcqEnter? then AcqCheck(s.pc[p].k) else RelClear(s.pc[p].k), Take(K(s.pc[p].k)));
  }

  lemma CheckStep(s: St, c: nat, p: nat, ch: Choice)
    requires OnCpu(s, c, p) && s.pc[p].AcqCheck?
    ensures Shape(s) && Inv(GateStep(s, p, ch))
  {
    hide Inv, ProcAt, ParentAt;
    PcGive(s, p);
    var k := s.pc[p].k;
    if s.locked[k] {
      PlainMove(s, c, p, Sleep1(SleepLock(k)), Keep);
    } else if ch == Open {
      ToUser(s, c, p, K(k));
      assert s.locked[k := false] == s.locked;
    } else {
      SetLockedInv(s, k, true);
      ToUser(s.(locked := s.locked[k := true]), c, p, K(k));
    }
  }

  lemma ClearStep(s: St, c: nat, p: nat, ch: Choice)
    requires OnCpu(s, c, p) && s.pc[p].RelClear?
    ensures Shape(s) && Inv(GateStep(s, p, ch))
  {
    hide Inv, ProcAt, ParentAt;
    PcGive(s, p);
    var k := s.pc[p].k;
    if ch == Shut {
      SetLockedInv(s, k, true);
      ToUser(s.(locked := s.locked[k := true]), c, p, K(k));
    } else {
      PlainMove(s, c, p, Wake(SleepLock(k), 0, ToRelease(k)), Keep);
      var m := Move(s, c, p, Wake(SleepLock(k), 0, ToRelease(k)), Keep);
      HolderOf(m, c, p, K(k));
      SetLockedInv(m, k, ch == Still);
    }
  }

  lemma HolderOf(s: St, c: nat, p: nat, l: Lock)
    requires OnCpu(s, c, p) && Shape(s) && l in Held(s.pc[p], p)
    ensures l in s.lock && s.lock[l] == c
  {
    assert LockAt(s, c, l);
  }

  lemma DoneStep(s: St, c: nat, p: nat)
    requires OnCpu(s, c, p) && s.pc[p].RelDone?
    requires Wants(s, p).Some? ==> Free(s, Wants(s, p).value)
    ensures Shape(s) && Inv(SleepStep(s, c, p))
  {
    hide Inv, ProcAt, ParentAt;
    PcGive(s, p);
    ToUser(s, c, p, K(s.pc[p].k));
  }

  // ----- sleep -----

  /** wait() sleeps only when no child is a zombie. */
  lemma NoZombies(s: St, p: nat)
    requires Inv(s) && p < |s.st| && (s.pc[p] == Sleep1(WaitOf(p)) || s.pc[p] == Sleep2(WaitOf(p)))
    ensures Shape(s) && forall z: nat {:trigger ZombieChild(s, p, z)} :: !ZombieChild(s, p, z)
  {
    forall z: nat ensures !ZombieChild(s, p, z) { assert ScanAt(s, p, z); }
  }

  lemma Sleep1Step(s: St, c: nat, p: nat)
    requires OnCpu(s, c, p) && s.pc[p].Sleep1?
    requires Wants(s, p).Some? ==> Free(s, Wants(s, p).value)
    ensures Shape(s) && Inv(SleepStep(s, c, p))
  {
    hide Inv, ProcAt, ParentAt;
    PcGive(s, p);
    var ch := s.pc[p].ch;
    if ch.WaitOf? { NoZombies(s, p); }
    assert Promises(s, p, Sleep2(ch));
    assert WakesDone(s, p, Sleep2(ch));
    MoveInv(s, c, p, Sleep2(ch), Take(P(p)));
  }

  lemma Sleep2Step(s: St, c: nat, p: nat)
    requires OnCpu(s, c, p) && s.pc[p].Sleep2?
    requires Wants(s, p).Some? ==> Free(s, Wants(s, p).value)
    ensures Shape(s) && Inv(SleepStep(s, c, p))
  {
    hide Inv, ProcAt, ParentAt;
    PcGive(s, p);
    var ch := s.pc[p].ch;
    if ch.WaitOf? { NoZombies(s, p); }
    assert Promises(s, p, Sleep3(ch));
    assert WakesDone(s, p, Sleep3(ch));
    MoveInv(s, c, p, Sleep3(ch), Drop(Guard(ch)));
  }

  lemma Sleep3Step(s: St, c: nat, p: nat)
    requires OnCpu(s, c, p) && s.pc[p].Sleep3?
    requires Wants(s, p).Some? ==> Free(s, Wants(s, p).value)
    ensures Shape(s) && Inv(SleepStep(s, c, p))
  {
    hide Inv, ProcAt, ParentAt;
    PcGive(s, p);
    ChangeInv(s, c, p, Sched(Sleep4(s.pc[p].ch)), Sleeping, s.pc[p].ch);
  }

  lemma Sleep4Step(s: St, c: nat, p: nat)
    requires OnCpu(s, c, p) && s.pc[p].Sleep4?
    requires Wants(s, p).Some? ==> Free(s, Wants(s, p).value)
    ensures Shape(s) && Inv(SleepStep(s, c, p))
  {
    hide Inv, ProcAt, ParentAt;
    PcGive(s, p);
    RunningHere(s, c, p);
    ClearChanInv(s, p);
    PlainMove(s.(chan := s.chan[p := Nothing]), c, p, Sleep5(s.pc[p].ch), Drop(P(p)));
  }

  lemma RunningHere(s: St, c: nat, p: nat)
    requires OnCpu(s, c, p)
    ensures Shape(s) && s.on[p] == Some(c) && (PlainPc(s.pc[p]) ==> s.st[p] == Running)
  {
    assert CpuAt(s, c) && ProcAt(s, p);
  }

  lemma Sleep5Step(s: St, c: nat, p: nat)
    requires OnCpu(s, c, p) && s.pc[p].Sleep5?
    requires Wants(s, p).Some? ==> Free(s, Wants(s, p).value)
    ensures Shape(s) && Inv(SleepStep(s, c, p))
  {
    hide Inv, ProcAt, ParentAt;
    PcGive(s, p);
    var ch := s.pc[p].ch;
    if ch.SleepLock? {
      PlainMove(s, c, p, AcqCheck(ch.k), Take(K(ch.k)));
    } else {
      StartScan(s, c, p);
    }
  }

  /** wait() starts to look at the process table, with wait_lock held. */
  lemma StartScan(s: St, c: nat, p: nat)
    requires OnCpu(s, c, p) && Free(s, W) && (s.pc[p].Sleep5? || s.pc[p].Wait1?)
    ensures Inv(Move(s, c, p, WaitScan(0, false), Take(W)))
  {
    hide Inv, ProcAt, ParentAt;
    PcGive(s, p);
    assert Promises(s, p, WaitScan(0, false));
    assert WakesDone(s, p, WaitScan(0, false));
    MoveInv(s, c, p, WaitScan(0, false), Take(W));
  }

  // ----- wakeup -----

  /** What a thread in wakeup() has done so far. */
  lemma WakeFacts(s: St, p: nat)
    requires Inv(s) && p < |s.st| && (s.pc[p].Wake? || s.pc[p].WakeHold?)
    ensures Shape(s)
    ensures forall z: nat :: z < |s.st| && Reparented(s.pc[p], z) ==> s.parent[z] != Some(p)
    ensures s.parent[p].Some? ==> s.parent[p].value < |s.st|
    ensures s.parent[p].Some? && s.pc[p].then_.ToExit? && s.parent[p].value < s.pc[p].i ==>
            !Asleep(s, s.parent[p].value, WaitOf(s.parent[p].value))
  {
    assert ExitAt(s, p) && ParentAt(s, p);
    forall z: nat | z < |s.st| && Reparented(s.pc[p], z) ensures s.parent[z] != Some(p) { assert OrphanAt(s, p, z); }
  }

  /** wakeup() goes on to process i, if the processes it leaves behind do not sleep on the channel. */
  lemma WakeOn(s: St, c: nat, p: nat, pc: Pc, op: LockOp)
    requires OnCpu(s, c, p) && (s.pc[p].Wake? || s.pc[p].WakeHold?) && (pc.Wake? || pc.WakeHold?)
    requires pc.ch == s.pc[p].ch && pc.then_ == s.pc[p].then_ && s.pc[p].i <= pc.i && LocksMatch(s, p, pc, op)
             && (pc.WakeHold? ==> pc.i < |s.st|)
    requires Shape(s) && forall q: nat :: s.pc[p].i <= q < pc.i ==> !Asleep(s, q, pc.ch)
    ensures Inv(Move(s, c, p, pc, op))
  {
    hide Inv, ProcAt, ParentAt, LocksMatch, Asleep, Promises, WakesDone;
    PcGive(s, p);
    WakeOnPromises(s, p, pc);
    MoveInv(s, c, p, pc, op);
  }

  lemma WakeOnPromises(s: St, p: nat, pc: Pc)
    requires Inv(s) && p < |s.st| && (s.pc[p].Wake? || s.pc[p].WakeHold?) && (pc.Wake? || pc.WakeHold?)
    requires pc.ch == s.pc[p].ch && pc.then_ == s.pc[p].then_ && s.pc[p].i <= pc.i
    requires Shape(s) && forall q: nat :: s.pc[p].i <= q < pc.i ==> !Asleep(s, q, pc.ch)
    ensures WakesDone(s, p, pc) && Promises(s, p, pc)
  {
    hide Inv, Asleep;
    WakeFacts(s, p);
    PcGive(s, p);
  }

  lemma WakeStep(s: St, c: nat, p: nat)
    requires OnCpu(s, c, p) && s.pc[p].Wake? && s.pc[p].i < |s.st|
    requires Wants(s, p).Some? ==> Free(s, Wants(s, p).value)
    ensures Shape(s) && Inv(SleepStep(s, c, p))
  {
    hide Inv, ProcAt, ParentAt;
    PcGive(s, p);
    var w := s.pc[p];
    if w.i == p {
      RunningHere(s, c, p);
      WakeOn(s, c, p, Wake(w.ch, w.i + 1, w.then_), Keep);
    } else {
      WakeOn(s, c, p, WakeHold(w.ch, w.i, w.then_), Take(P(w.i)));
    }
  }

  lemma WokenAll(s: St, c: nat, p: nat)
    requires OnCpu(s, c, p) && s.pc[p].Wake? && s.pc[p].i >= |s.st|
    requires Wants(s, p).Some? ==> Free(s, Wants(s, p).value)
    ensures Shape(s) && Inv(SleepStep(s, c, p))
  {
    hide Inv, ProcAt, ParentAt;
    PcGive(s, p);
    var w := s.pc[p];
    WakeFacts(s, p);
    var to := AfterWake(w.then_);
    assert WakesDone(s, p, to);
    assert Promises(s, p, to) by { WokenPromises(s, p); }
    MoveInv(s, c, p, to, Keep);
  }

  lemma WokenPromises(s: St, p: nat)
    requires Inv(s) && p < |s.st| && s.pc[p].Wake? && s.pc[p].i >= |s.st|
    ensures Shape(s) && Promises(s, p, AfterWake(s.pc[p].then_))
  {
    hide Inv;
    WakeFacts(s, p);
  }

  lemma WakeHoldStep(s: St, c: nat, p: nat)
    requires OnCpu(s, c, p) && s.pc[p].WakeHold?
    ensures Shape(s) && Inv(SleepStep(s, c, p))
  {
    hide Inv, ProcAt, ParentAt, PcAt, SetSt, SleepStep, Rel, At;
    PcGive(s, p);
    var w := s.pc[p];
    ChildSlot(s, p);
    NotFallen(s, c, p, w.i);
    WakeHoldIs(s, c, p);
    if s.st[w.i] == Sleeping && s.chan[w.i] == w.ch {
      WakeInv(s, w.i);
      SetStIs(s, w.i, Runnable);
      Woken(SetSt(s, w.i, Runnable), c, p);
    } else {
      Woken(s, c, p);
    }
  }

  lemma WakeHoldIs(s: St, c: nat, p: nat)
    requires Shape(s) && p < |s.pc| && s.pc[p].WakeHold? && s.pc[p].i < |s.st|
    ensures var w := s.pc[p];
            var m := if s.st[w.i] == Sleeping && s.chan[w.i] == w.ch then SetSt(s, w.i, Runnable) else s;
            p < |m.pc| && SleepStep(s, c, p) == Rel(At(m, p, Wake(w.ch, w.i + 1, w.then_)), P(w.i))
  {
  }

  lemma SetStIs(s: St, i: nat, st: PState)
    requires i < |s.st|
    ensures SetSt(s, i, st) == s.(st := s.st[i := st])
  {
  }

  /** wakeup() releases the lock of a process that does not sleep on the channel, and goes on. */
  lemma Woken(m: St, c: nat, p: nat)
    requires OnCpu(m, c, p) && Shape(m) && m.pc[p].WakeHold? && !Asleep(m, m.pc[p].i, m.pc[p].ch)
    ensures Inv(Rel(At(m, p, Wake(m.pc[p].ch, m.pc[p].i + 1, m.pc[p].then_)), P(m.pc[p].i)))
  {
    hide Inv;
    var w := m.pc[p];
    LockOfWoken(m, p);
    WakeOn(m, c, p, Wake(w.ch, w.i + 1, w.then_), Drop(P(w.i)));
  }

  lemma LockOfWoken(m: St, p: nat)
    requires p < |m.pc| && m.pc[p].WakeHold?
    ensures LocksMatch(m, p, Wake(m.pc[p].ch, m.pc[p].i + 1, m.pc[p].then_), Drop(P(m.pc[p].i)))
  {
  }

  /** A process whose lock another thread holds is not about to sleep, and if it sleeps has left the CPU. */
  lemma NotFallen(s: St, c: nat, p: nat, i: nat)
    requires OnCpu(s, c, p) && i < |s.st| && P(i) in Held(s.pc[p], p)
             && (i == p ==> PlainPc(s.pc[p]) && !s.pc[p].Sleep3?)
    ensures Shape(s) && !s.pc[i].Sleep3? && (s.st[i] == Sleeping || s.st[i] == Zombie ==> s.on[i] == None)
  {
    hide ScanAt, WaitAt, ExitAt, OrphanAt, ForkAt, ParentAt, SleepAt;
    assert CpuAt(s, c) && ProcAt(s, i) && LockAt(s, c, P(i)) && PcAt(s, i);
    if s.on[i].Some? { assert LockAt(s, s.on[i].value, P(i)); }
  }

  // ----- yield, sched and kill -----

  lemma YieldStep(s: St, c: nat, p: nat)
    requires OnCpu(s, c, p) && s.pc[p].Yield1?
    requires Wants(s, p).Some? ==> Free(s, Wants(s, p).value)
    ensures Shape(s) && Inv(ExitStep(s, c, p))
  {
    hide Inv, ProcAt, ParentAt;
    PcGive(s, p);
    PlainMove(s, c, p, Yield2, Take(P(p)));
  }

  lemma ResumedStep(s: St, c: nat, p: nat)
    requires OnCpu(s, c, p) && (s.pc[p].YieldR? || s.pc[p].ForkRet?)
    requires Wants(s, p).Some? ==> Free(s, Wants(s, p).value)
    ensures Shape(s) && Inv(ExitStep(s, c, p))
  {
    hide Inv, ProcAt, ParentAt;
    PcGive(s, p);
    ToUser(s, c, p, P(p));
  }

  lemma Yield2Step(s: St, c: nat, p: nat)
    requires OnCpu(s, c, p) && s.pc[p].Yield2?
    requires Wants(s, p).Some? ==> Free(s, Wants(s, p).value)
    ensures Shape(s) && Inv(ExitStep(s, c, p))
  {
    hide Inv, ProcAt, ParentAt;
    PcGive(s, p);
    ChangeInv(s, c, p, Sched(YieldR), Runnable, s.chan[p]);
    assert SetSt(At(s, p, Sched(YieldR)), p, Runnable) == Change(s, p, Sched(YieldR), Runnable, s.chan[p]);
  }

  lemma SchedulingStep(s: St, c: nat, p: nat)
    requires OnCpu(s, c, p) && s.pc[p].Sched?
    requires Wants(s, p).Some? ==> Free(s, Wants(s, p).value)
    ensures Shape(s) && Inv(ExitStep(s, c, p))
  {
    hide Inv, ProcAt, ParentAt;
    PcGive(s, p);
    SwitchOutInv(s, c, p, s.pc[p].next);
    assert ExitStep(s, c, p) == SwitchOut(s, c, p, s.pc[p].next);
  }

  lemma KillStep(s: St, c: nat, p: nat)
    requires OnCpu(s, c, p) && s.pc[p].Kill1?
    requires Wants(s, p).Some? ==> Free(s, Wants(s, p).value)
    ensures Shape(s) && Inv(ExitStep(s, c, p))
  {
    hide Inv, ProcAt, ParentAt;
    PcGive(s, p);
    PlainMove(s, c, p, Kill2(s.pc[p].i), Take(P(s.pc[p].i)));
  }

  lemma Kill2Step(s: St, c: nat, p: nat)
    requires OnCpu(s, c, p) && s.pc[p].Kill2?
    requires Wants(s, p).Some? ==> Free(s, Wants(s, p).value)
    ensures Shape(s) && Inv(ExitStep(s, c, p))
  {
    hide Inv, ProcAt, ParentAt;
    PcGive(s, p);
    var i := s.pc[p].i;
    NotFallen(s, c, p, i);
    if s.st[i] == Sleeping { WakeInv(s, i); }
    ToUser(if s.st[i] == Sleeping then SetSt(s, i, Runnable) else s, c, p, P(i));
  }

  // ----- exit -----

  /** What a thread in exit() has done so far. */
  lemma ExitFacts(s: St, p: nat)
    requires Inv(s) && p < |s.st|
    ensures Shape(s) && forall z: nat {:trigger Reparented(s.pc[p], z)} :: z < |s.st| && Reparented(s.pc[p], z) ==>
                                                                           s.parent[z] != Some(p)
    ensures s.parent[p].Some? && (s.pc[p].ExitLock? || s.pc[p].ExitSet?) ==>
            !Asleep(s, s.parent[p].value, WaitOf(s.parent[p].value))
  {
    hide Reparented;
    assert ExitAt(s, p);
    forall z: nat | z < |s.st| && Reparented(s.pc[p], z) ensures s.parent[z] != Some(p) { assert OrphanAt(s, p, z); }
  }

  /** reparent() and what follows move on, if the processes left behind are no children. */
  lemma ExitMove(s: St, c: nat, p: nat, pc: Pc, op: LockOp)
    requires OnCpu(s, c, p) && LocksMatch(s, p, pc, op) && PlainPc(s.pc[p]) && !s.pc[p].Wake? && !s.pc[p].WakeHold?
             && PcAt(At(s, p, pc), p)
    requires pc.Reparent? || pc.ExitSet? || (pc.Wake? && pc.i == 0)
    requires forall z: nat {:trigger Reparented(pc, z)} :: z < |s.st| && Reparented(pc, z) ==> s.parent[z] != Some(p)
    requires Shape(s) && (pc.ExitSet? ==> s.pc[p].ExitLock?)
    ensures Inv(Move(s, c, p, pc, op))
  {
    hide Inv, LocksMatch, PcAt, Reparented;
    ExitFacts(s, p);
    assert WakesDone(s, p, pc);
    assert Promises(s, p, pc);
    MoveInv(s, c, p, pc, op);
  }

  lemma ExitStart(s: St, c: nat, p: nat)
    requires OnCpu(s, c, p) && s.pc[p].Exit1?
    requires Wants(s, p).Some? ==> Free(s, Wants(s, p).value)
    ensures Shape(s) && Inv(ExitStep(s, c, p))
  {
    hide Inv, ProcAt, ParentAt;
    PcGive(s, p);
    ExitMove(s, c, p, Reparent(0), Take(W));
  }

  lemma ReparentStep(s: St, c: nat, p: nat)
    requires OnCpu(s, c, p) && s.pc[p].Reparent?
    requires Wants(s, p).Some? ==> Free(s, Wants(s, p).value)
    ensures Shape(s) && Inv(ExitStep(s, c, p))
  {
    hide Inv, ProcAt, ParentAt;
    PcGive(s, p);
    var j := s.pc[p].j;
    ExitFacts(s, p);
    if j >= |s.st| {
      var w := Wake(if s.parent[p].Some? then WaitOf(s.parent[p].value) else Nothing, 0, ToExit);
      forall z: nat | z < |s.st| && Reparented(w, z) ensures s.parent[z] != Some(p) { assert Reparented(s.pc[p], z); }
      ExitMove(s, c, p, w, Keep);
    } else if s.parent[j] != Some(p) {
      var next := Reparent(j + 1);
      forall z: nat | z < |s.st| && Reparented(next, z)
        ensures s.parent[z] != Some(p)
      {
        assert z != j ==> Reparented(s.pc[p], z);
      }
      ExitMove(s, c, p, next, Keep);
    } else {
      ReparentChild(s, c, p, j);
    }
  }

  lemma ReparentChild(s: St, c: nat, p: nat, j: nat)
    requires OnCpu(s, c, p) && s.pc[p] == Reparent(j) && Shape(s) && j < |s.st| && s.parent[j] == Some(p)
    ensures Inv(At(s, p, Wake(WaitOf(0), 0, ToReparent(j + 1))).(parent := s.parent[j := Some(0)]))
  {
    hide Inv, ProcAt, ParentAt;
    PcGive(s, p);
    ExitFacts(s, p);
    var w, w' := Wake(WaitOf(0), 0, ToReparent(j)), Wake(WaitOf(0), 0, ToReparent(j + 1));
    assert forall z: nat :: Reparented(w, z) ==> Reparented(s.pc[p], z);
    ExitMove(s, c, p, w, Keep);
    var m := Move(s, c, p, w, Keep);
    ReparentInv(m, c, p, j, ToReparent(j));
    var n := m.(parent := m.parent[j := Some(0)]);
    NextChild(n, c, p, j);
    assert Move(n, c, p, w', Keep) == At(s, p, w').(parent := s.parent[j := Some(0)]);
  }

  lemma NextChild(n: St, c: nat, p: nat, j: nat)
    requires OnCpu(n, c, p) && Shape(n) && n.pc[p] == Wake(WaitOf(0), 0, ToReparent(j)) && j < |n.st|
             && n.parent[j] == Some(0) && p != 0
    ensures Inv(Move(n, c, p, Wake(WaitOf(0), 0, ToReparent(j + 1)), Keep))
  {
    hide Inv, ProcAt, ParentAt;
    PcGive(n, p);
    ExitFacts(n, p);
    var w' := Wake(WaitOf(0), 0, ToReparent(j + 1));
    assert forall z: nat :: Reparented(w', z) && z != j ==> Reparented(n.pc[p], z);
    assert WakesDone(n, p, w');
    assert Promises(n, p, w');
    MoveInv(n, c, p, w', Keep);
  }

  lemma ExitLockStep(s: St, c: nat, p: nat)
    requires OnCpu(s, c, p) && s.pc[p].ExitLock?
    requires Wants(s, p).Some? ==> Free(s, Wants(s, p).value)
    ensures Shape(s) && Inv(ExitStep(s, c, p))
  {
    hide Inv, ProcAt, ParentAt;
    PcGive(s, p);
    ExitFacts(s, p);
    forall z: nat | z < |s.st| && Reparented(ExitSet, z)
      ensures s.parent[z] != Some(p)
    {
      assert Reparented(s.pc[p], z);
    }
    ExitMove(s, c, p, ExitSet, Take(P(p)));
  }

  lemma ExitSetStep(s: St, c: nat, p: nat)
    requires OnCpu(s, c, p) && s.pc[p].ExitSet?
    requires Wants(s, p).Some? ==> Free(s, Wants(s, p).value)
    ensures Shape(s) && Inv(ExitStep(s, c, p))
  {
    hide Inv, ProcAt, ParentAt;
    PcGive(s, p);
    ChangeInv(s, c, p, ExitRel, Zombie, s.chan[p]);
    assert ExitStep(s, c, p) == Change(s, p, ExitRel, Zombie, s.chan[p]);
  }

  lemma ExitRelStep(s: St, c: nat, p: nat)
    requires OnCpu(s, c, p) && s.pc[p].ExitRel?
    requires Wants(s, p).Some? ==> Free(s, Wants(s, p).value)
    ensures Shape(s) && Inv(ExitStep(s, c, p))
  {
    hide Inv, ProcAt, ParentAt;
    PcGive(s, p);
    assert WakesDone(s, p, Sched(Dead));
    assert Promises(s, p, Sched(Dead));
    MoveInv(s, c, p, Sched(Dead), Drop(W));
  }

  // ----- wait -----

  lemma WaitStart(s: St, c: nat, p: nat, ch: Choice)
    requires OnCpu(s, c, p) && s.pc[p].Wait1?
    requires Wants(s, p).Some? ==> Free(s, Wants(s, p).value)
    ensures Shape(s) && Inv(FamilyStep(s, c, p, ch))
  {
    hide Inv, ProcAt, ParentAt;
    PcGive(s, p);
    StartScan(s, c, p);
  }

  /** wait() moves on over the process table, if there is no zombie child among those it leaves behind. */
  lemma ScanMove(s: St, c: nat, p: nat, pc: Pc, op: LockOp)
    requires OnCpu(s, c, p) && LocksMatch(s, p, pc, op) && (s.pc[p].WaitScan? || s.pc[p].WaitChild?)
             && PcAt(At(s, p, pc), p)
    requires Shape(s) && (pc.WaitScan? || pc.WaitChild? || pc == Sleep1(WaitOf(p)))
    requires forall z: nat :: s.pc[p].i <= z && (pc.Sleep1? || z < pc.i) ==> !ZombieChild(s, p, z)
    ensures Inv(Move(s, c, p, pc, op))
  {
    hide Inv, LocksMatch, PcAt, ZombieChild;
    forall z: nat | ZombieChild(s, p, z) ensures s.pc[p].i <= z { ScanGive(s, p, z); }
    assert WakesDone(s, p, pc);
    assert Promises(s, p, pc);
    MoveInv(s, c, p, pc, op);
  }

  lemma ScanPc(s: St, p: nat, pc: Pc)
    requires Shape(s) && p < |s.st| && PcAt(s, p)
             && (pc.WaitScan? || pc == WaitOut || pc == Sleep1(WaitOf(p)) || (pc.WaitChild? && pc.i < |s.st|))
    ensures PcAt(At(s, p, pc), p)
  {
  }

  lemma ChildSlot(s: St, p: nat)
    requires Shape(s) && p < |s.st| && PcAt(s, p) && (s.pc[p].WaitChild? || s.pc[p].WakeHold?)
    ensures s.pc[p].i < |s.st|
  {
  }

  lemma ScanGive(s: St, p: nat, z: nat)
    requires Inv(s) && p < |s.st| && Shape(s) && (s.pc[p].WaitScan? || s.pc[p].WaitChild?) && ZombieChild(s, p, z)
    ensures s.pc[p].i <= z
  {
    assert ScanAt(s, p, z);
  }

  lemma ScanStep(s: St, c: nat, p: nat, ch: Choice)
    requires OnCpu(s, c, p) && s.pc[p].WaitScan? && s.pc[p].i < |s.st|
    requires Wants(s, p).Some? ==> Free(s, Wants(s, p).value)
    ensures Shape(s) && Inv(FamilyStep(s, c, p, ch))
  {
    hide Inv, ProcAt, ParentAt, PcAt;
    PcGive(s, p);
    var i := s.pc[p].i;
    ScanPc(s, p, WaitChild(i));
    ScanPc(s, p, WaitScan(i + 1, s.pc[p].kids));
    if s.parent[i] == Some(p) {
      ScanMove(s, c, p, WaitChild(i), Take(P(i)));
    } else {
      ScanMove(s, c, p, WaitScan(i + 1, s.pc[p].kids), Keep);
    }
  }

  lemma ScanEnd(s: St, c: nat, p: nat, ch: Choice)
    requires OnCpu(s, c, p) && s.pc[p].WaitScan? && s.pc[p].i >= |s.st|
    requires Wants(s, p).Some? ==> Free(s, Wants(s, p).value)
    ensures Shape(s) && Inv(FamilyStep(s, c, p, ch))
  {
    hide Inv, ProcAt, ParentAt, PcAt;
    PcGive(s, p);
    ScanPc(s, p, WaitOut);
    ScanPc(s, p, Sleep1(WaitOf(p)));
    if !s.pc[p].kids || ch == Fail {
      PlainMove(s, c, p, WaitOut, Keep);
    } else {
      ScanMove(s, c, p, Sleep1(WaitOf(p)), Keep);
    }
  }

  lemma ChildStep(s: St, c: nat, p: nat, ch: Choice)
    requires OnCpu(s, c, p) && s.pc[p].WaitChild?
    ensures Shape(s) && Inv(FamilyStep(s, c, p, ch))
  {
    hide Inv, ProcAt, ParentAt, PcAt;
    PcGive(s, p);
    var i := s.pc[p].i;
    ChildSlot(s, p);
    NotFallen(s, c, p, i);
    if s.st[i] != Zombie {
      PastChild(s, c, p, i);
    } else if ch == Fail {
      LeaveChild(s, c, p, i);
    } else {
      Reap(s, c, p, i);
    }
  }

  lemma PastChild(s: St, c: nat, p: nat, i: nat)
    requires OnCpu(s, c, p) && s.pc[p] == WaitChild(i) && Shape(s) && i < |s.st| && s.st[i] != Zombie
    ensures Inv(Rel(At(s, p, WaitScan(i + 1, true)), P(i)))
  {
    hide Inv, ProcAt, ParentAt, PcAt;
    PcGive(s, p);
    ScanPc(s, p, WaitScan(i + 1, true));
    ScanMove(s, c, p, WaitScan(i + 1, true), Drop(P(i)));
  }

  lemma LeaveChild(s: St, c: nat, p: nat, i: nat)
    requires OnCpu(s, c, p) && s.pc[p] == WaitChild(i) && Shape(s) && i < |s.st|
    ensures Inv(Rel(At(s, p, WaitOut), P(i)))
  {
    hide Inv, ProcAt, ParentAt, PcAt;
    PcGive(s, p);
    ScanPc(s, p, WaitOut);
    PlainMove(s, c, p, WaitOut, Drop(P(i)));
  }

  lemma Reap(s: St, c: nat, p: nat, i: nat)
    requires OnCpu(s, c, p) && s.pc[p] == WaitChild(i) && i < |s.st| && s.st[i] == Zombie && Shape(s) && s.on[i] == None
    ensures Inv(Rel(At(FreeProc(s, i), p, WaitOut), P(i)))
  {
    hide Inv, ParentAt;
    RunningHere(s, c, p);
    PcGive(s, p);
    FreeInv(s, i);
    PlainMove(FreeProc(s, i), c, p, WaitOut, Drop(P(i)));
  }

  lemma WaitOutStep(s: St, c: nat, p: nat, ch: Choice)
    requires OnCpu(s, c, p) && s.pc[p].WaitOut?
    requires Wants(s, p).Some? ==> Free(s, Wants(s, p).value)
    ensures Shape(s) && Inv(FamilyStep(s, c, p, ch))
  {
    hide Inv, ProcAt, ParentAt;
    PcGive(s, p);
    ToUser(s, c, p, W);
  }

  // ----- fork -----

  lemma ForkGive(s: St, p: nat, i: nat)
    requires Inv(s) && p < |s.st| && i < |s.st| && Forking(s.pc[p], i)
    ensures Shape(s) && s.st[i] == Used && s.on[i] == None && forall p': nat {:trigger Forking(s.pc[p'], i)} ::
            p' < |s.st| && Forking(s.pc[p'], i) ==> p' == p
  {
    assert ForkAt(s, p, p) && ProcAt(s, i);
    forall p': nat | p' < |s.st| && Forking(s.pc[p'], i) ensures p' == p { assert ForkAt(s, p, p'); }
  }

  /** fork() moves on with the same slot. */
  lemma ForkMove(s: St, c: nat, p: nat, pc: Pc, op: LockOp, i: nat)
    requires OnCpu(s, c, p) && LocksMatch(s, p, pc, op) && PlainPc(s.pc[p]) && !s.pc[p].Wake? && !s.pc[p].WakeHold?
             && i < |s.st| && Forking(pc, i)
    requires s.st[i] == Used && forall p': nat {:trigger Forking(s.pc[p'], i)} ::
             p' < |s.st| && Forking(s.pc[p'], i) ==> p' == p
    ensures Inv(Move(s, c, p, pc, op))
  {
    hide Inv, LocksMatch, ProcAt, ParentAt, PcAt;
    PcGive(s, p);
    ForkPc(s, p, pc, i);
    assert WakesDone(s, p, pc);
    assert Promises(s, p, pc);
    MoveInv(s, c, p, pc, op);
  }

  lemma ForkPc(s: St, p: nat, pc: Pc, i: nat)
    requires Shape(s) && p < |s.st| && PcAt(s, p) && i < |s.st| && Forking(pc, i)
    ensures PcAt(At(s, p, pc), p)
  {
  }

  lemma Fork1Step(s: St, c: nat, p: nat, ch: Choice)
    requires OnCpu(s, c, p) && s.pc[p].Fork1?
    requires Wants(s, p).Some? ==> Free(s, Wants(s, p).value)
    ensures Shape(s) && Inv(FamilyStep(s, c, p, ch))
  {
    hide Inv, ProcAt, ParentAt;
    PcGive(s, p);
    PlainMove(s, c, p, Fork2(s.pc[p].i), Take(P(s.pc[p].i)));
  }

  lemma Fork2Step(s: St, c: nat, p: nat, ch: Choice)
    requires OnCpu(s, c, p) && s.pc[p].Fork2?
    requires Wants(s, p).Some? ==> Free(s, Wants(s, p).value)
    ensures Shape(s) && Inv(FamilyStep(s, c, p, ch))
  {
    hide Inv, ProcAt, ParentAt;
    PcGive(s, p);
    var i := s.pc[p].i;
    if s.st[i] == Unused {
      UseInv(s, i);
      var m := SetSt(s, i, Used);
      ForkMove(m, c, p, Fork3(i), Keep, i);
      assert Move(m, c, p, Fork3(i), Keep) == SetSt(At(s, p, Fork3(i)), i, Used);
    } else {
      ToUser(s, c, p, P(i));
    }
  }

  lemma Fork3Step(s: St, c: nat, p: nat, ch: Choice)
    requires OnCpu(s, c, p) && s.pc[p].Fork3?
    ensures Shape(s) && Inv(FamilyStep(s, c, p, ch))
  {
    hide Inv, ProcAt, ParentAt, PcAt;
    PcGive(s, p);
    var i := s.pc[p].i;
    ForkSlot(s, p);
    ForkGive(s, p, i);
    if ch == Fail {
      ForkFailed(s, c, p, i);
    } else {
      ForkMove(s, c, p, Fork4(i), Drop(P(i)), i);
    }
  }

  lemma ForkSlot(s: St, p: nat)
    requires Shape(s) && p < |s.st| && PcAt(s, p) && (s.pc[p].Fork2? || s.pc[p].Fork3? || s.pc[p].Fork4?
             || s.pc[p].Fork5? || s.pc[p].Fork6? || s.pc[p].Fork7?)
    ensures s.pc[p].i < |s.st|
  {
  }

  lemma ForkFailed(s: St, c: nat, p: nat, i: nat)
    requires OnCpu(s, c, p) && s.pc[p] == Fork3(i) && i < |s.st| && s.st[i] == Used && Shape(s)
    requires forall p': nat {:trigger Forking(s.pc[p'], i)} :: p' < |s.st| && Forking(s.pc[p'], i) ==> p' == p
    requires s.on[i] == None
    ensures Inv(Rel(At(FreeProc(s, i), p, User), P(i)))
  {
    hide Inv, ProcAt, ParentAt;
    PcGive(s, p);
    RunningHere(s, c, p);
    PlainMove(s, c, p, Fork2(i), Keep);
    var m := Move(s, c, p, Fork2(i), Keep);
    FreeInv(m, i);
    var n := FreeProc(m, i);
    PcGive(n, p);
    ToUser(n, c, p, P(i));
    assert At(n, p, User) == At(FreeProc(s, i), p, User);
  }

  lemma Fork46Step(s: St, c: nat, p: nat, ch: Choice)
    requires OnCpu(s, c, p) && (s.pc[p].Fork4? || s.pc[p].Fork6?)
    requires Wants(s, p).Some? ==> Free(s, Wants(s, p).value)
    ensures Shape(s) && Inv(FamilyStep(s, c, p, ch))
  {
    hide Inv, ProcAt, ParentAt, PcAt;
    PcGive(s, p);
    var i := s.pc[p].i;
    ForkSlot(s, p);
    ForkGive(s, p, i);
    if s.pc[p].Fork4? {
      ForkMove(s, c, p, Fork5(i), Take(W), i);
    } else {
      ForkMove(s, c, p, Fork7(i), Take(P(i)), i);
    }
  }

  lemma Fork5Step(s: St, c: nat, p: nat, ch: Choice)
    requires OnCpu(s, c, p) && s.pc[p].Fork5?
    requires Wants(s, p).Some? ==> Free(s, Wants(s, p).value)
    ensures Shape(s) && Inv(FamilyStep(s, c, p, ch))
  {
    hide Inv, ProcAt, ParentAt;
    PcGive(s, p);
    var i := s.pc[p].i;
    ForkGive(s, p, i);
    RunningHere(s, c, p);
    AdoptInv(s, i, p);
    ForkMove(s.(parent := s.parent[i := Some(p)]), c, p, Fork6(i), Drop(W), i);
  }

  lemma Fork7Step(s: St, c: nat, p: nat, ch: Choice)
    requires OnCpu(s, c, p) && s.pc[p].Fork7?
    ensures Shape(s) && Inv(FamilyStep(s, c, p, ch))
  {
    hide Inv, ProcAt, ParentAt, PcAt;
    PcGive(s, p);
    var i := s.pc[p].i;
    ForkSlot(s, p);
    ForkGive(s, p, i);
    RunningHere(s, c, p);
    Forked(s, c, p, i);
  }

  lemma Forked(s: St, c: nat, p: nat, i: nat)
    requires OnCpu(s, c, p) && s.pc[p] == Fork7(i) && i < |s.st| && s.st[i] == Used && Shape(s) && s.st[p] == Running
    requires forall p': nat {:trigger Forking(s.pc[p'], i)} :: p' < |s.st| && Forking(s.pc[p'], i) ==> p' == p
    ensures Inv(Rel(At(SetSt(At(s, i, ForkRet), i, Runnable), p, User), P(i)))
  {
    hide Inv, ProcAt, ParentAt;
    PcGive(s, p);
    PlainMove(s, c, p, Kill2(i), Keep);
    var m := Move(s, c, p, Kill2(i), Keep);
    ActivateInv(m, i);
    var n := Activate(m, i);
    PcGive(n, p);
    ToUser(n, c, p, P(i));
    assert At(n, p, User) == At(SetSt(At(s, i, ForkRet), i, Runnable), p, User);
  }

  // ----- all steps -----

  lemma StartStep(s: St, c: nat, p: nat, ch: Choice)
    requires OnCpu(s, c, p) && s.pc[p].User?
    ensures Shape(s) && Inv(Start(s, p, ch))
  {
    hide Inv, ProcAt, ParentAt, PcAt, Start, Plain;
    PcGive(s, p);
    StartFacts(s, p, ch);
    if Start(s, p, ch) != s {
      PlainMove(s, c, p, Start(s, p, ch).pc[p], Keep);
    }
  }

  /** The control points a system call starts at. */
  predicate Entry(s: St, p: nat, pc: Pc) {
    || ((pc.AcqEnter? || pc.RelEnter?) && pc.k < |s.locked|)
    || ((pc.Fork1? || pc.Kill1?) && pc.i < |s.st|)
    || pc.Yield1? || pc.Wait1? || (pc.Exit1? && p != 0)
  }

  lemma StartFacts(s: St, p: nat, ch: Choice)
    requires Shape(s) && p < |s.st| && PcAt(s, p) && s.pc[p].User?
    ensures var m := Start(s, p, ch);
            m != s ==> p < |m.pc| && m == At(s, p, m.pc[p]) && Plain(m.pc[p]) && Held(m.pc[p], p) == {} && PcAt(m, p)
  {
    hide PcAt, Plain, Held;
    var m := Start(s, p, ch);
    if m != s {
      assert m == At(s, p, m.pc[p]) && Entry(s, p, m.pc[p]);
      EntryFacts(s, p, m.pc[p]);
    }
  }

  lemma EntryFacts(s: St, p: nat, pc: Pc)
    requires Shape(s) && p < |s.st| && PcAt(s, p) && Entry(s, p, pc)
    ensures Plain(pc) && Held(pc, p) == {} && PcAt(At(s, p, pc), p)
  {
  }

  lemma SchedulerStep(s: St, c: nat)
    requires Inv(s) && Shape(s) && c < |s.cpu| && !s.cpu[c].Run? && Enabled(s, c)
    ensures Inv(SchedStep(s, c))
  {
    hide Inv;
    CpuGive(s, c);
    match s.cpu[c]
    case Scan(i) =>
      if i < |s.st| {
        CpuMoveInv(s, c, Test(i), Take(P(i)));
        assert SchedStep(s, c) == CpuMove(s, c, Test(i), Take(P(i)));
      } else {
        CpuMoveInv(s, c, Scan(0), Keep);
        assert SchedStep(s, c) == CpuMove(s, c, Scan(0), Keep);
      }
    case Test(i) =>
      if s.st[i] == Runnable {
        DispatchInv(s, c, i);
        assert SchedStep(s, c) == Dispatch(s, c, i);
      } else {
        CpuMoveInv(s, c, Scan(i + 1), Drop(P(i)));
        assert SchedStep(s, c) == CpuMove(s, c, Scan(i + 1), Drop(P(i)));
      }
    case Go(i) =>
      ResumeInv(s, c, i);
      assert SchedStep(s, c) == Resume(s, c, i);
    case Back(i) =>
      CpuMoveInv(s, c, Scan(i + 1), Drop(P(i)));
      assert SchedStep(s, c) == CpuMove(s, c, Scan(i + 1), Drop(P(i)));
  }

  lemma CpuGive(s: St, c: nat)
    requires Inv(s)
    ensures Shape(s) && CpuAt(s, c)
  {
  }

  lemma SleepSteps(s: St, c: nat, p: nat)
    requires OnCpu(s, c, p) && InSleep(s.pc[p]) && (Wants(s, p).Some? ==> Free(s, Wants(s, p).value))
    ensures Shape(s) && Inv(SleepStep(s, c, p))
  {
    hide Inv, SleepStep, Wants;
    InvShape(s);
    match s.pc[p]
    case AcqEnter(_) => AcqStep(s, c, p);
    case RelEnter(_) => AcqStep(s, c, p);
    case RelDone(_) => DoneStep(s, c, p);
    case Sleep1(_) => Sleep1Step(s, c, p);
    case Sleep2(_) => Sleep2Step(s, c, p);
    case Sleep3(_) => Sleep3Step(s, c, p);
    case Sleep4(_) => Sleep4Step(s, c, p);
    case Sleep5(_) => Sleep5Step(s, c, p);
    case Wake(_, i, _) => if i < |s.st| { WakeStep(s, c, p); } else { WokenAll(s, c, p); }
    case WakeHold(_, _, _) => WakeHoldStep(s, c, p);
    case _ =>
  }

  lemma GateSteps(s: St, c: nat, p: nat, ch: Choice)
    requires OnCpu(s, c, p) && InGate(s.pc[p])
    ensures Shape(s) && Inv(GateStep(s, p, ch))
  {
    hide Inv, GateStep;
    InvShape(s);
    if s.pc[p].AcqCheck? { CheckStep(s, c, p, ch); } else { ClearStep(s, c, p, ch); }
  }

  lemma ExitSteps(s: St, c: nat, p: nat)
    requires OnCpu(s, c, p) && InExit(s.pc[p]) && (Wants(s, p).Some? ==> Free(s, Wants(s, p).value))
    ensures Shape(s) && Inv(ExitStep(s, c, p))
  {
    hide Inv, ExitStep, Wants;
    InvShape(s);
    match s.pc[p]
    case Yield1 => YieldStep(s, c, p);
    case Yield2 => Yield2Step(s, c, p);
    case YieldR => ResumedStep(s, c, p);
    case ForkRet => ResumedStep(s, c, p);
    case Sched(_) => SchedulingStep(s, c, p);
    case Exit1 => ExitStart(s, c, p);
    case Reparent(_) => ReparentStep(s, c, p);
    case ExitLock => ExitLockStep(s, c, p);
    case ExitSet => ExitSetStep(s, c, p);
    case ExitRel => ExitRelStep(s, c, p);
    case Kill1(_) => KillStep(s, c, p);
    case Kill2(_) => Kill2Step(s, c, p);
    case _ =>
  }

  lemma FamilySteps(s: St, c: nat, p: nat, ch: Choice)
    requires OnCpu(s, c, p) && !InGate(s.pc[p]) && !InSleep(s.pc[p]) && !InExit(s.pc[p]) && !s.pc[p].User?
             && (Wants(s, p).Some? ==> Free(s, Wants(s, p).value))
    ensures Shape(s) && Inv(FamilyStep(s, c, p, ch))
  {
    hide Inv, FamilyStep, Wants;
    RunningHere(s, c, p);
    NotDead(s, c, p);
    match s.pc[p]
    case Wait1 => WaitStart(s, c, p, ch);
    case WaitScan(i, _) => if i < |s.st| { ScanStep(s, c, p, ch); } else { ScanEnd(s, c, p, ch); }
    case WaitChild(_) => ChildStep(s, c, p, ch);
    case WaitOut => WaitOutStep(s, c, p, ch);
    case Fork1(_) => Fork1Step(s, c, p, ch);
    case Fork2(_) => Fork2Step(s, c, p, ch);
    case Fork3(_) => Fork3Step(s, c, p, ch);
    case Fork4(_) => Fork46Step(s, c, p, ch);
    case Fork5(_) => Fork5Step(s, c, p, ch);
    case Fork6(_) => Fork46Step(s, c, p, ch);
    case Fork7(_) => Fork7Step(s, c, p, ch);
    case _ =>
  }

  /** A thread that has exited does not run. */
  lemma NotDead(s: St, c: nat, p: nat)
    requires OnCpu(s, c, p)
    ensures Shape(s) && !s.pc[p].Dead?
  {
    assert CpuAt(s, c) && ProcAt(s, p);
  }

  /** Every step of every CPU keeps the invariant. */
  lemma StepInv(s: St, c: nat, ch: Choice)
    requires Inv(s) && Shape(s) && Enabled(s, c)
    ensures Inv(Do(s, c, ch))
  {
    hide Inv, GateStep, SleepStep, ExitStep, FamilyStep, SchedStep, Start, InGate, InSleep, InExit, Wants;
    if s.cpu[c].Run? {
      var p := s.cpu[c].p;
      if s.pc[p].User? {
        StartStep(s, c, p, ch);
      } else if InGate(s.pc[p]) {
        GateSteps(s, c, p, ch);
      } else if InSleep(s.pc[p]) {
        SleepSteps(s, c, p);
      } else if InExit(s.pc[p]) {
        ExitSteps(s, c, p);
      } else {
        FamilySteps(s, c, p, ch);
      }
    } else {
      SchedulerStep(s, c);
    }
  }

  // ----- runs -----

  datatype Act = Act(c: nat, choice: Choice)

  /** The state after a run; an action of a CPU that waits for a lock changes nothing. */
  function Exec(s: St, acts: seq<Act>): St {
    if acts == [] then s
    else
      var m := Exec(s, acts[..|acts| - 1]);
      var a := acts[|acts| - 1];
      if Shape(m) && Enabled(m, a.c) then Do(m, a.c, a.choice) else m
  }

  /** The machine at boot: init is runnable, the other slots are free, no lock is held. */
  predicate Boot(s: St) {
    && Shape(s) && s.lock == map[]
    && (forall p :: 0 <= p < |s.st| ==>
          && s.st[p] == (if p == 0 then Runnable else Unused) && s.pc[p] == (if p == 0 then ForkRet else Dead)
          && s.parent[p] == None && s.on[p] == None)
    && (forall c :: 0 <= c < |s.cpu| ==> s.cpu[c].Scan? && s.cproc[c] == None)
  }

  lemma BootInv(s: St)
    requires Boot(s)
    ensures Inv(s)
  {
    hide ProcAt, PcAt, ParentAt, ExitAt, SleepAt, WaitAt, ScanAt, OrphanAt, ForkAt;
    forall c: nat, l ensures LockAt(s, c, l) {}
    forall l ensures LockRange(s, l) {}
    forall c: nat ensures CpuAt(s, c) {}
    forall p: nat ensures ProcAt(s, p) && PcAt(s, p) && ParentAt(s, p) && ExitAt(s, p) { BootProc(s, p); }
    forall p: nat, k: nat ensures SleepAt(s, p, k) { BootPair(s, p, k); }
    forall q: nat, z: nat
      ensures WaitAt(s, q, z) && ScanAt(s, q, z) && OrphanAt(s, q, z) && ForkAt(s, q, z)
    {
      BootPair(s, q, z);
    }
  }

  lemma BootProc(s: St, p: nat)
    requires Boot(s)
    ensures ProcAt(s, p) && PcAt(s, p) && ParentAt(s, p) && ExitAt(s, p)
  {
  }

  lemma BootPair(s: St, q: nat, z: nat)
    requires Boot(s)
    ensures SleepAt(s, q, z) && WaitAt(s, q, z) && ScanAt(s, q, z) && OrphanAt(s, q, z) && ForkAt(s, q, z)
  {
  }

  lemma {:induction false} RunInv(s: St, acts: seq<Act>)
    requires Boot(s)
    ensures Inv(Exec(s, acts))
  {
    hide Inv, Do;
    if acts == [] {
      BootInv(s);
    } else {
      RunInv(s, acts[..|acts| - 1]);
      var m, a := Exec(s, acts[..|acts| - 1]), acts[|acts| - 1];
      if Shape(m) && Enabled(m, a.c) { StepInv(m, a.c, a.choice); }
    }
  }

  /** No wakeup is lost: while its spin lock is free, nobody sleeps at a gate that is open, be it a sleep lock that
      is not locked or begin_op's test. */
  lemma NoLostWakeup(s: St, acts: seq<Act>, p: nat, k: nat)
    requires Boot(s)
    ensures var e := Exec(s, acts);
            Shape(e) && (k < |e.locked| && Free(e, K(k)) && !e.locked[k] ==>
              !(p < |e.st| && e.st[p] == Sleeping && e.chan[p] == SleepLock(k)))
  {
    RunInv(s, acts);
    assert SleepAt(Exec(s, acts), p, k);
  }

  /** While wait_lock is free, nobody sleeps in wait() with a zombie child. */
  lemma NoLostExit(s: St, acts: seq<Act>, q: nat, z: nat)
    requires Boot(s)
    ensures var e := Exec(s, acts);
            Shape(e) && (Free(e, W) && q < |e.st| && e.st[q] == Sleeping && e.chan[q] == WaitOf(q) ==>
              !ZombieChild(e, q, z))
  {
    RunInv(s, acts);
    assert WaitAt(Exec(s, acts), q, z);
  }

  /** No process has a parent that is a zombie or an unused slot. */
  lemma ParentsLive(s: St, acts: seq<Act>, z: nat)
    requires Boot(s)
    ensures var e := Exec(s, acts);
            Shape(e) && (z < |e.st| && e.parent[z].Some? ==>
              e.parent[z].value < |e.st| && e.st[e.parent[z].value] !in {Unused, Used, Zombie})
  {
    RunInv(s, acts);
    assert ParentAt(Exec(s, acts), z);
  }

  /** Whenever p->lock is free, p is RUNNING just if some CPU runs it, and then just one does. */
  lemma CpuExclusive(s: St, acts: seq<Act>, p: nat)
    requires Boot(s)
    ensures var e := Exec(s, acts);
            Shape(e) && (p < |e.st| && Free(e, P(p)) ==>
              && (e.st[p] == Running <==> exists c: nat :: c < |e.cpu| && e.cproc[c] == Some(p))
              && (forall c: nat, c': nat ::
                    c < |e.cpu| && c' < |e.cpu| && e.cproc[c] == Some(p) == e.cproc[c'] ==> c == c'))
  {
    RunInv(s, acts);
    var e := Exec(s, acts);
    if p < |e.st| && Free(e, P(p)) {
      forall c: nat | c < |e.cpu| && e.cproc[c] == Some(p)
        ensures e.on[p] == Some(c) && e.st[p] == Running
      {
        OneCpu(e, c, p);
      }
      if e.st[p] == Running { RunningOn(e, p); }
    }
  }

  lemma OneCpu(e: St, c: nat, p: nat)
    requires Inv(e) && Shape(e) && p < |e.st| && Free(e, P(p)) && c < |e.cpu| && e.cproc[c] == Some(p)
    ensures e.on[p] == Some(c) && e.st[p] == Running
  {
    assert CpuAt(e, c) && LockAt(e, c, P(p)) && ProcAt(e, p);
  }

  lemma RunningOn(e: St, p: nat)
    requires Inv(e) && Shape(e) && p < |e.st| && Free(e, P(p)) && e.st[p] == Running
    ensures e.on[p].Some? && e.on[p].value < |e.cpu| && e.cproc[e.on[p].value] == Some(p)
  {
    assert ProcAt(e, p);
    assert e.on[p].Some? ==> CpuAt(e, e.on[p].value);
  }

  /** The checks of sched(): p->lock is held, no other lock is, and the process is not RUNNING. */
  lemma SchedChecks(s: St, acts: seq<Act>, c: nat, p: nat)
    requires Boot(s)
    ensures var e := Exec(s, acts);
            Shape(e) && (c < |e.cpu| && e.cpu[c] == Run(p) && p < |e.st| && e.pc[p].Sched? ==>
              && e.st[p] != Running
              && (forall l :: (l in e.lock && e.lock[l] == c) <==> l == P(p)))
  {
    RunInv(s, acts);
    var e := Exec(s, acts);
    if c < |e.cpu| && e.cpu[c] == Run(p) && p < |e.st| && e.pc[p].Sched? {
      assert CpuAt(e, c) && ProcAt(e, p);
      forall l ensures (l in e.lock && e.lock[l] == c) <==> l == P(p) { assert LockAt(e, c, l); }
    }
  }
}
