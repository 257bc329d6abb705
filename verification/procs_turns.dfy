/**
 Runs of the process machine that do occur: a child is forked, exits and is
 reaped; and from every reachable state without a held lock, a CPU that scans
 comes to run each process that is RUNNABLE.
 */
module ProcsTurns {
  import opened Options
  import opened Procs
  import opened ProcsInv
  import opened ProcsRuns
  import opened ProcsProgress
  import opened ProcsCalls

  lemma NoneHeld(s: St)
    requires s.lock == map[]
    ensures Unheld(s)
  {
  }

  /** CPU c runs p: p is RUNNING and each knows the other. */
  predicate RunsOn(s: St, c: nat, p: nat) {
    && Shape(s) && c < |s.cpu| && p < |s.st|
    && s.cpu[c] == Run(p) && s.st[p] == Running && s.on[p] == Some(c) && s.cproc[c] == Some(p)
  }

  /** A CPU that scans runs the first RUNNABLE process p, which goes on in user space. */
  lemma DispatchAndResume(s: St, c: nat, i: nat, p: nat) returns (e: St)
    requires ScanningAt(s, c, i) && s.lock == map[] && FirstMet(s, i, p) && (s.pc[p].YieldR? || s.pc[p].ForkRet?)
    ensures Leads(s, c, e)
    ensures e == s.(st := s.st[p := Running], pc := s.pc[p := User], cpu := s.cpu[c := Run(p)],
                    cproc := s.cproc[c := Some(p)], on := s.on[p := Some(c)])
  {
    hide Leads, Unheld;
    DispatchIff(s, c, i, p);
    var d := Dispatched(s, c, p);
    ResumeRun(d, c, p);
    e := d.(pc := d.pc[p := User], lock := d.lock - {P(p)});
    LeadsTrans(s, c, d, e);
    assert e.lock == map[];
  }

  // ----- a child forked, gone and reaped -----

  /** init has run, forked process 1, and sleeps in wait(). */
  function Forked(s: St, c: nat): St
    requires Shape(s) && c < |s.cpu| && |s.st| > 1
  {
    s.(st := s.st[0 := Sleeping][1 := Runnable], chan := s.chan[0 := WaitOf(0)], parent := s.parent[1 := Some(0)],
       pc := s.pc[0 := Sleep4(WaitOf(0))][1 := ForkRet], cpu := s.cpu[c := Scan(1)])
  }

  lemma ForkAndWait(s: St, c: nat)
    requires Boot(s) && |s.st| > 1 && c < |s.cpu|
    ensures Leads(s, c, Forked(s, c))
  {
    hide Leads, Unheld, NoZombie, AnyChild;
    NoneHeld(s);
    var a := DispatchAndResume(s, c, s.cpu[c].i, 0);
    ForkRun(a, c, 0, 1);
    var b := a.(st := a.st[1 := Runnable], parent := a.parent[1 := Some(0)], pc := a.pc[1 := ForkRet]);
    LeadsTrans(s, c, a, b);
    OneChild(b);
    NoneHeld(b);
    WaitRun(b, c, 0);
    assert s.st[0 := Running][1 := Runnable][0 := Sleeping] == s.st[0 := Sleeping][1 := Runnable];
    assert s.pc[0 := User][1 := ForkRet][0 := Sleep4(WaitOf(0))] == s.pc[0 := Sleep4(WaitOf(0))][1 := ForkRet];
    SetTwice(s.cpu, c, Run(0), Scan(1));
    SetSame(s.cproc, c, Some(0));
    SetSame(s.on, 0, Some(c));
    LeadsTrans(s, c, b, Forked(s, c));
  }

  lemma OneChild(s: St)
    requires Shape(s) && |s.st| > 1 && s.st[1] == Runnable && s.parent[1] == Some(0)
    requires forall z :: 0 <= z < |s.st| && z != 1 ==> s.parent[z] == None
    ensures NoZombie(s, 0, 0, |s.st|) && AnyChild(s, 0, 0, |s.st|) && NoZombie(s, 0, 0, 1)
  {
  }

  /** Process 1 has run and exited, and has woken init. */
  function ChildGone(s: St, c: nat): St
    requires Shape(s) && c < |s.cpu| && |s.st| > 1
  {
    Forked(s, c).(st := s.st[0 := Runnable][1 := Zombie], pc := s.pc[0 := Sleep4(WaitOf(0))],
                  cpu := s.cpu[c := Scan(2)])
  }

  lemma ChildExits(s: St, c: nat)
    requires Boot(s) && |s.st| > 1 && c < |s.cpu|
    ensures Leads(s, c, ChildGone(s, c))
  {
    hide Leads, Unheld, HasChild;
    ForkAndWait(s, c);
    var f := Forked(s, c);
    NoneHeld(f);
    var a := DispatchAndResume(f, c, 1, 1);
    LeadsTrans(s, c, f, a);
    NoneHeld(a);
    ExitRun(a, c, 1, 0);
    NoGrandchild(a);
    assert Roused(a.st, a.chan, WaitOf(0), 1, 0)[1 := Zombie] == s.st[0 := Runnable][1 := Zombie];
    assert a.pc[1 := Dead] == s.pc[0 := Sleep4(WaitOf(0))];
    SetTwice(f.cpu, c, Run(1), Scan(2));
    SetTwice(s.cpu, c, Scan(1), Scan(2));
    SetSame(f.cproc, c, Some(1));
    SetSame(f.on, 1, Some(c));
    LeadsTrans(s, c, a, ChildGone(s, c));
  }

  lemma NoGrandchild(s: St)
    requires Shape(s) && forall z :: 0 <= z < |s.st| ==> s.parent[z] != Some(1)
    ensures !HasChild(s.parent, 1, 0) && GivenAway(s.parent, 1, 0) == s.parent
  {
  }

  /** init has reaped process 1 and is back in user space. */
  function Reaped(s: St, c: nat): St
    requires Shape(s) && c < |s.cpu| && |s.st| > 1
  {
    s.(st := s.st[0 := Running], chan := s.chan[0 := Nothing][1 := Nothing], pc := s.pc[0 := User],
       cpu := s.cpu[c := Run(0)], cproc := s.cproc[c := Some(0)], on := s.on[0 := Some(c)])
  }

  lemma InitReaps(s: St, c: nat)
    requires Boot(s) && |s.st| > 1 && c < |s.cpu|
    ensures Leads(ChildGone(s, c), c, Reaped(s, c))
  {
    hide Leads, Unheld, FirstMet, NoZombie;
    var g := ChildGone(s, c);
    NoneHeld(g);
    InitFirst(g);
    DispatchIff(g, c, 2, 0);
    var d := Dispatched(g, c, 0);
    NoEarlier(d);
    WokenReaps(d, c, 0, 1);
    ReapedIs(s, c, d);
    LeadsTrans(g, c, d, Reaped(s, c));
  }

  lemma ReapedIs(s: St, c: nat, d: St)
    requires Boot(s) && |s.st| > 1 && c < |s.cpu| && d == Dispatched(ChildGone(s, c), c, 0)
    ensures Reaped(s, c) == d.(st := d.st[1 := Unused], chan := d.chan[0 := Nothing][1 := Nothing],
                               parent := d.parent[1 := None], pc := d.pc[0 := User], lock := d.lock - {P(0)})
  {
    assert d.lock - {P(0)} == map[];
    assert d.st[1 := Unused] == s.st[0 := Running] && d.parent[1 := None] == s.parent;
    assert d.chan[0 := Nothing][1 := Nothing] == s.chan[0 := Nothing][1 := Nothing];
    SetTwice(s.pc, 0, Sleep4(WaitOf(0)), User);
    SetTwice(s.cpu, c, Scan(2), Run(0));
  }

  /** From every boot state with two slots, a CPU of its own accord comes to a state where process 1 is a zombie child
      of init, and from there to one where init has reaped it and the slot is free again. */
  lemma FamilyRun(s: St, c: nat) returns (z: St, e: St)
    requires Boot(s) && |s.st| > 1 && c < |s.cpu|
    ensures Leads(s, c, z) && Shape(z) && |z.st| == |s.st| && ZombieChild(z, 0, 1) && z.st[0] == Runnable
    ensures Leads(z, c, e) && RunsOn(e, c, 0) && |e.st| == |s.st| && e.pc[0] == User
    ensures e.st[1] == Unused && e.parent[1] == None && e.lock == map[]
  {
    hide Leads;
    ChildExits(s, c);
    InitReaps(s, c);
    z, e := ChildGone(s, c), Reaped(s, c);
  }

  lemma InitFirst(s: St)
    requires Shape(s) && s.st[0] == Runnable && forall j :: 0 < j < |s.st| ==> s.st[j] != Runnable
    ensures FirstMet(s, 2, 0)
  {
  }

  lemma NoEarlier(s: St)
    requires Shape(s) && s.st[0] == Running
    ensures NoZombie(s, 0, 0, 1)
  {
  }

  // ----- a turn of a process -----

  /** The processes that are RUNNABLE in st0, but for q, still are. */
  predicate Kept(st0: seq<PState>, q: nat, s: St) {
    |s.st| == |st0| && forall j :: 0 <= j < |st0| && j != q && st0[j] == Runnable ==> s.st[j] == Runnable
  }

  /** CPU c is done with q for now. */
  predicate TurnOver(st0: seq<PState>, c: nat, q: nat, s: St) {
    Shape(s) && c < |s.cpu| && s.cpu[c] == Scan(q + 1) && s.lock == map[] && Kept(st0, q, s)
  }

  lemma EndsInYield(s: St, c: nat, m: St, q: nat, st0: seq<PState>) returns (e: St)
    requires Leads(s, c, m) && Here(m, c, q, User) && m.lock == map[] && Kept(st0, q, m)
    ensures Leads(s, c, e) && TurnOver(st0, c, q, e)
  {
    hide Leads;
    YieldRun(m, c, q);
    e := m.(st := m.st[q := Runnable], pc := m.pc[q := YieldR], cpu := m.cpu[c := Scan(q + 1)],
      cproc := m.cproc[c := None], on := m.on[q := None]);
    LeadsTrans(s, c, m, e);
  }

  lemma EndsInSleep(s: St, c: nat, m: St, q: nat, ch: Chan, st0: seq<PState>) returns (e: St)
    requires Leads(s, c, m) && Here(m, c, q, Sleep1(ch)) && m.lock == map[Guard(ch) := c] && Kept(st0, q, m)
    ensures Leads(s, c, e) && TurnOver(st0, c, q, e)
  {
    hide Leads;
    e := FallAsleep(s, c, m, q, ch);
    assert e.lock == map[];
  }

  /** Back in acquiresleep's loop: q takes the lock, or sleeps again. */
  lemma RetryGate(s: St, c: nat, m: St, q: nat, k: nat, st0: seq<PState>) returns (e: St)
    requires Leads(s, c, m) && Here(m, c, q, AcqCheck(k)) && k < |m.locked| && m.lock == map[K(k) := c]
    requires Kept(st0, q, m)
    ensures Leads(s, c, e) && TurnOver(st0, c, q, e)
  {
    hide Leads, TurnOver;
    if m.locked[k] {
      e := DoAcqWait(s, c, m, q, k);
      e := EndsInSleep(s, c, e, q, SleepLock(k), st0);
    } else {
      e := DoAcqPass(s, c, m, q, k);
      e := EndsInYield(s, c, e, q, st0);
    }
  }

  lemma {:induction false} FirstZombie(s: St, q: nat, j: nat) returns (z: nat)
    requires Shape(s) && j <= |s.st|
    ensures z <= j && NoZombie(s, q, 0, z)
    ensures z < j ==> s.parent[z] == Some(q) && s.st[z] == Zombie
  {
    if j == 0 {
      z := 0;
    } else {
      z := FirstZombie(s, q, j - 1);
      if z == j - 1 && !(s.parent[z] == Some(q) && s.st[z] == Zombie) { z := j; }
    }
  }

  /** Back in wait's loop: q reaps a zombie child, sleeps again, or has no children left. */
  lemma RetryWait(s: St, c: nat, m: St, q: nat, st0: seq<PState>) returns (e: St)
    requires Leads(s, c, m) && Here(m, c, q, WaitScan(0, false)) && m.lock == map[W := c] && Kept(st0, q, m)
    ensures Leads(s, c, e) && TurnOver(st0, c, q, e)
  {
    hide Leads, TurnOver, NoZombie, AnyChild, Unheld;
    OnlyWait(m, c);
    var z := FirstZombie(m, q, |m.st|);
    if z < |m.st| {
      e := ReapFrom(s, c, m, q, z);
      assert e.lock == map[];
      ReapKeeps(st0, q, m, e, z);
      e := EndsInYield(s, c, e, q, st0);
    } else {
      e := LookOn(s, c, m, q, 0, false, |m.st|);
      e := GiveUp(s, c, e, q, AnyChild(m, q, 0, |m.st|), st0);
    }
  }

  lemma GiveUp(s: St, c: nat, m: St, q: nat, kids: bool, st0: seq<PState>) returns (e: St)
    requires Leads(s, c, m) && Here(m, c, q, WaitScan(|m.st|, kids)) && m.lock == map[W := c] && Kept(st0, q, m)
    ensures Leads(s, c, e) && TurnOver(st0, c, q, e)
  {
    hide Leads, TurnOver;
    if kids {
      e := DoWaitSleep(s, c, m, q, |m.st|, kids);
      e := EndsInSleep(s, c, e, q, WaitOf(q), st0);
    } else {
      e := DoWaitNone(s, c, m, q, |m.st|, kids);
      e := DoWaitOut(s, c, e, q);
      e := EndsInYield(s, c, e, q, st0);
    }
  }

  lemma OnlyWait(s: St, c: nat)
    requires s.lock == map[W := c]
    ensures Unheld(s)
  {
  }

  lemma ReapKeeps(st0: seq<PState>, q: nat, m: St, e: St, z: nat)
    requires Kept(st0, q, m) && z < |m.st| && m.st[z] == Zombie && e.st == m.st[z := Unused]
    ensures Kept(st0, q, e)
  {
  }

  /** A process that was dispatched where it slept takes the guard again. */
  lemma TakeGuard(s: St, c: nat, m: St, q: nat, ch: Chan, back: Pc) returns (e: St)
    requires Leads(s, c, m) && Here(m, c, q, Sleep4(ch)) && m.lock == map[P(q) := c] && Guard(ch) != P(q)
    requires back == match ch case SleepLock(k) => AcqCheck(k) case _ => WaitScan(0, false)
    ensures Leads(s, c, e)
    ensures e == m.(pc := m.pc[q := back], chan := m.chan[q := Nothing], lock := map[Guard(ch) := c])
  {
    hide Leads;
    e := DoSleep4(s, c, m, q, ch);
    e := DoSleep5(s, c, e, q, ch);
    SetTwice(m.pc, q, Sleep5(ch), back);
    assert e.lock == map[Guard(ch) := c];
  }

  /** The thread of a RUNNABLE process, its lock being free, is where it can go on. */
  predicate Ready(s: St, q: nat)
    requires Shape(s) && q < |s.st|
  {
    s.pc[q].YieldR? || s.pc[q].ForkRet?
    || (s.pc[q].Sleep4? && ((s.pc[q].ch.SleepLock? && s.pc[q].ch.k < |s.locked|) || s.pc[q].ch == WaitOf(q)))
  }

  lemma RunnableReady(s: St, q: nat)
    requires Inv(s) && Shape(s) && q < |s.st| && s.st[q] == Runnable && P(q) !in s.lock
    ensures Ready(s, q)
  {
    assert ProcAt(s, q) && PcAt(s, q);
    var c := if s.on[q].Some? then s.on[q].value else 0;
    assert LockAt(s, c, P(q));
  }

  /** The first RUNNABLE process has its turn, whatever it was about to do. */
  lemma Turn(s: St, c: nat, i: nat, q: nat) returns (e: St)
    requires ScanningAt(s, c, i) && s.lock == map[] && FirstMet(s, i, q) && Ready(s, q)
    ensures Leads(s, c, e) && TurnOver(s.st, c, q, e)
  {
    hide Leads, TurnOver, Unheld, FirstMet;
    FirstIs(s, i, q);
    if s.pc[q].Sleep4? {
      DispatchIff(s, c, i, q);
      e := TurnAwake(s, c, Dispatched(s, c, q), q, s.pc[q].ch, s.st);
    } else {
      e := DispatchAndResume(s, c, i, q);
      e := EndsInYield(s, c, e, q, s.st);
    }
  }

  lemma TurnAwake(s: St, c: nat, m: St, q: nat, ch: Chan, st0: seq<PState>) returns (e: St)
    requires Leads(s, c, m) && Here(m, c, q, Sleep4(ch)) && m.lock == map[P(q) := c] && Kept(st0, q, m)
    requires (ch.SleepLock? && ch.k < |m.locked|) || ch == WaitOf(q)
    ensures Leads(s, c, e) && TurnOver(st0, c, q, e)
  {
    hide Leads, TurnOver;
    if ch.SleepLock? {
      e := TakeGuard(s, c, m, q, ch, AcqCheck(ch.k));
      e := RetryGate(s, c, e, q, ch.k, st0);
    } else {
      e := TakeGuard(s, c, m, q, ch, WaitScan(0, false));
      e := RetryWait(s, c, e, q, st0);
    }
  }

  // ----- every process that is RUNNABLE -----

  lemma {:induction false} ExecInv(s: St, acts: seq<Act>)
    requires Inv(s)
    ensures Inv(Exec(s, acts))
  {
    hide Inv, Do;
    if acts != [] {
      ExecInv(s, acts[..|acts| - 1]);
      var m, a := Exec(s, acts[..|acts| - 1]), acts[|acts| - 1];
      if Shape(m) && Enabled(m, a.c) { StepInv(m, a.c, a.choice); }
    }
  }

  lemma LeadsInv(s: St, c: nat, e: St)
    requires Inv(s) && Leads(s, c, e)
    ensures Inv(e)
  {
    hide Inv;
    var acts :| Solo(acts, c) && Exec(s, acts) == e;
    ExecInv(s, acts);
  }

  /** How many processes the scan meets before it comes to p. */
  function Distance(n: nat, i: nat, p: nat): (d: nat)
    requires p < n
  {
    if i <= p then p - i else if i < n then n - i + p else p
  }

  lemma Nearer(s: St, i: nat, q: nat, p: nat)
    requires Shape(s) && FirstMet(s, i, q) && p < |s.st| && s.st[p] == Runnable && q != p
    ensures Distance(|s.st|, q + 1, p) < Distance(|s.st|, i, p)
  {
  }

  lemma {:induction false} ComesTo(s: St, c: nat, i: nat, p: nat) returns (e: St)
    requires Inv(s) && ScanningAt(s, c, i) && s.lock == map[] && p < |s.st| && s.st[p] == Runnable
    ensures Leads(s, c, e) && RunsOn(e, c, p)
    decreases Distance(|s.st|, i, p)
  {
    hide Inv, Leads, Unheld, FirstMet, Ready, Distance;
    var q := SomeFirst(s, i, p);
    FirstIs(s, i, q);
    if q == p {
      DispatchIff(s, c, i, p);
      e := Dispatched(s, c, p);
    } else {
      RunnableReady(s, q);
      var m := Turn(s, c, i, q);
      LeadsInv(s, c, m);
      NoneHeld(m);
      Nearer(s, i, q, p);
      e := ComesTo(m, c, q + 1, p);
      LeadsTrans(s, c, m, e);
    }
  }

  /** From every reachable state without a held lock, a CPU that scans comes by its own steps to run any process that
      is RUNNABLE. */
  lemma Progress(s: St, acts: seq<Act>, c: nat, p: nat)
    requires Boot(s)
    requires var m := Exec(s, acts);
             Shape(m) && m.lock == map[] && c < |m.cpu| && m.cpu[c].Scan? && p < |m.st| && m.st[p] == Runnable
    ensures exists e :: Leads(Exec(s, acts), c, e) && RunsOn(e, c, p)
  {
    hide Inv, Leads, Unheld;
    RunInv(s, acts);
    var m := Exec(s, acts);
    NoneHeld(m);
    var e := ComesTo(m, c, m.cpu[c].i, p);
  }

  // ----- but not always without disturbing another -----

  /** Two processes that were both woken while their sleep lock is still locked. */
  function Two(): St {
    var at := Sleep4(SleepLock(0));
    St([Runnable, Runnable], [SleepLock(0), SleepLock(0)], [None, Some(0)], [at, at], [None, None], [Scan(0)], [None],
       map[], [true])
  }

  /** Inside sleep() and the loop of acquiresleep(). */
  predicate Looping(pc: Pc) {
    var g := SleepLock(0);
    pc in {AcqCheck(0), Sleep1(g), Sleep2(g), Sleep3(g), Sleep4(g), Sleep5(g), Sched(Sleep4(g))}
  }

  predicate Idle(s: St, p: nat)
    requires p < |s.st| && p < |s.pc|
  {
    s.pc[p] == Sleep4(SleepLock(0)) && (s.st[p] == Sleeping || s.st[p] == Runnable)
  }

  /** Process 0, once past the scan, sleeps for good; and only then is process 1 run. */
  predicate Stuck(s: St) {
    && Shape(s) && |s.st| == 2 && |s.cpu| == 1 && s.locked == [true]
    && match s.cpu[0]
       case Scan(i) => Idle(s, 0) && Idle(s, 1) && (i > 0 ==> s.st[0] == Sleeping)
       case Test(i) => i < 2 && Idle(s, 0) && Idle(s, 1) && (i > 0 ==> s.st[0] == Sleeping)
       case Go(i) =>
         && i < 2 && s.st[i] == Running && s.pc[i] == Sleep4(SleepLock(0)) && Idle(s, 1 - i)
         && (i > 0 ==> s.st[0] == Sleeping)
       case Run(i) =>
         && i < 2 && s.st[i] == (if s.pc[i].Sched? then Sleeping else Running) && Looping(s.pc[i]) && Idle(s, 1 - i)
         && (i > 0 ==> s.st[0] == Sleeping)
       case Back(i) => i < 2 && Idle(s, 0) && Idle(s, 1) && s.st[0] == Sleeping
  }

  lemma StuckStep(s: St, ch: Choice)
    requires Stuck(s) && Enabled(s, 0)
    ensures Stuck(Do(s, 0, ch))
  {
    hide Stuck, ThreadStep, SchedStep;
    StuckShape(s);
    if s.cpu[0].Run? {
      StuckThread(s, s.cpu[0].p, ch);
    } else {
      StuckSched(s);
    }
  }

  lemma StuckShape(s: St)
    requires Stuck(s)
    ensures Shape(s) && |s.st| == 2 && |s.cpu| == 1 && (s.cpu[0].Run? ==> s.cpu[0].p < 2 && Looping(s.pc[s.cpu[0].p]))
  {
  }

  lemma StuckThread(s: St, p: nat, ch: Choice)
    requires Stuck(s) && s.cpu[0] == Run(p)
    ensures p < 2 && Stuck(ThreadStep(s, 0, p, ch))
  {
    hide Stuck, GateStep, SleepStep, ExitStep, FamilyStep, Start;
    StuckShape(s);
    if s.pc[p].AcqCheck? {
      StuckGate(s, p, ch);
    } else if s.pc[p].Sched? {
      StuckLeave(s, p);
    } else {
      StuckSleep(s, p);
    }
  }

  lemma StuckGate(s: St, p: nat, ch: Choice)
    requires Stuck(s) && s.cpu[0] == Run(p) && p < 2 && s.pc[p].AcqCheck?
    ensures Stuck(GateStep(s, p, ch))
  {
  }

  lemma StuckLeave(s: St, p: nat)
    requires Stuck(s) && s.cpu[0] == Run(p) && p < 2 && s.pc[p].Sched?
    ensures Stuck(ExitStep(s, 0, p))
  {
  }

  lemma StuckSleep(s: St, p: nat)
    requires Stuck(s) && s.cpu[0] == Run(p) && p < 2 && InSleep(s.pc[p])
    ensures Stuck(SleepStep(s, 0, p))
  {
  }

  lemma StuckSched(s: St)
    requires Stuck(s) && !s.cpu[0].Run?
    ensures Stuck(SchedStep(s, 0))
  {
  }

  lemma {:induction false} StuckRun(acts: seq<Act>)
    requires Solo(acts, 0)
    ensures Stuck(Exec(Two(), acts))
  {
    hide Stuck, Do;
    if acts == [] {
      StuckFirst();
    } else {
      var n := |acts| - 1;
      StuckRun(acts[..n]);
      var m := Exec(Two(), acts[..n]);
      if Shape(m) && Enabled(m, 0) { StuckStep(m, acts[n].choice); }
    }
  }

  lemma StuckFirst()
    ensures Stuck(Two())
  {
  }

  /** In Two, which meets the invariant of the reachable states, no run of the CPU's own has process 1 RUNNING while
      process 0 still is RUNNABLE. */
  lemma NotUndisturbed(acts: seq<Act>)
    requires Solo(acts, 0)
    ensures Inv(Two()) && Two().st[0] == Runnable == Two().st[1]
    ensures var e := Exec(Two(), acts); |e.st| == 2 && (e.st[1] == Running ==> e.st[0] == Sleeping)
  {
    hide Inv, Exec;
    TwoInv();
    StuckRun(acts);
  }

  lemma TwoInv()
    ensures Inv(Two())
  {
    hide ProcAt, PcAt, ParentAt, ExitAt, SleepAt, WaitAt, ScanAt, OrphanAt, ForkAt;
    var s := Two();
    forall c: nat, l ensures LockAt(s, c, l) {}
    forall c: nat ensures CpuAt(s, c) {}
    forall p: nat ensures ProcAt(s, p) && PcAt(s, p) && ParentAt(s, p) && ExitAt(s, p) { TwoProc(p); }
    forall q: nat, z: nat
      ensures SleepAt(s, q, z) && WaitAt(s, q, z) && ScanAt(s, q, z) && OrphanAt(s, q, z) && ForkAt(s, q, z)
    {
      TwoPair(q, z);
    }
  }

  lemma TwoProc(p: nat)
    ensures ProcAt(Two(), p) && PcAt(Two(), p) && ParentAt(Two(), p) && ExitAt(Two(), p)
  {
  }

  lemma TwoPair(q: nat, z: nat)
    ensures SleepAt(Two(), q, z) && WaitAt(Two(), q, z) && ScanAt(Two(), q, z) && OrphanAt(Two(), q, z)
    ensures ForkAt(Two(), q, z)
  {
  }
}
