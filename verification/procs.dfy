/**
 Processes, CPUs and locks as an interleaving machine: every acquire is one
 step, and so is every stretch of code between two points where another CPU
 can intervene. The machine has any number of processes, CPUs and sleep locks.
 Process 0 is init.
 */
module Procs {
  import opened Options

  datatype PState = Unused | Used | Sleeping | Runnable | Running | Zombie

  /** What a process sleeps on: a gate, or in wait() itself. A gate is a condition kept under a spin lock, with
      `locked[k]` while who comes must sleep: a sleep lock, or begin_op's test of the log. */
  datatype Chan = Nothing | SleepLock(k: nat) | WaitOf(p: nat)

  /** Spin locks: p->lock, wait_lock, and the one of each gate. */
  datatype Lock = P(p: nat) | W | K(k: nat)

  /** Where wakeup() returns to: releasesleep(), reparent() or exit(). */
  datatype Then = ToRelease(k: nat) | ToReparent(j: nat) | ToExit

  /** Control points of a process's kernel thread. */
  datatype Pc =
    | User
    // acquiresleep or begin_op; releasesleep, log_write or end_op
    | AcqEnter(k: nat) | AcqCheck(k: nat)
    | RelEnter(k: nat) | RelClear(k: nat) | RelDone(k: nat)
    // sleep(chan): take p->lock, release the guard, mark as sleeping; then, resumed, tidy up and retake the guard
    | Sleep1(ch: Chan) | Sleep2(ch: Chan) | Sleep3(ch: Chan) | Sleep4(ch: Chan) | Sleep5(ch: Chan)
    // wakeup(chan), about to look at process i; or with its lock held
    | Wake(ch: Chan, i: nat, then_: Then) | WakeHold(ch: Chan, i: nat, then_: Then)
    // yield, and sched() with the point the thread will resume at
    | Yield1 | Yield2 | YieldR | Sched(next: Pc)
    // exit
    | Exit1 | Reparent(j: nat) | ExitLock | ExitSet | ExitRel | Dead
    // wait
    | Wait1 | WaitScan(i: nat, kids: bool) | WaitChild(i: nat) | WaitOut
    // fork
    | Fork1(i: nat) | Fork2(i: nat) | Fork3(i: nat) | Fork4(i: nat) | Fork5(i: nat) | Fork6(i: nat) | Fork7(i: nat)
    | ForkRet
    // kill
    | Kill1(i: nat) | Kill2(i: nat)

  /** Control points of a CPU: its scheduler loop at process i, or running a process's thread. */
  datatype CpuPc = Scan(i: nat) | Test(i: nat) | Go(i: nat) | Run(p: nat) | Back(i: nat)

  /** `cproc` is c->proc. `on` is auxiliary: the CPU that runs a process's thread. */
  datatype St = St(st: seq<PState>, chan: seq<Chan>, parent: seq<Option<nat>>, pc: seq<Pc>, on: seq<Option<nat>>,
                   cpu: seq<CpuPc>, cproc: seq<Option<nat>>, lock: map<Lock, nat>, locked: seq<bool>)

  /** How a choice the machine leaves open is made. Who passes a gate shuts it, as acquiresleep does, unless the
      choice is Open, as it may be for begin_op. Who changes the condition opens the gate and wakes the sleepers,
      as releasesleep does; or finds it still shut and wakes them (Still: end_op); or shuts it and wakes nobody
      (Shut: log_write, and end_op when it is to commit). */
  datatype Choice =
    | Next | Acquire(k: nat) | Release(k: nat) | Yield | Exit | Wait | Fork(i: nat) | Kill(i: nat) | Fail
    | Open | Still | Shut

  function Acq(s: St, c: nat, l: Lock): St {
    s.(lock := s.lock[l := c])
  }

  function Rel(s: St, l: Lock): St {
    s.(lock := s.lock - {l})
  }

  function At(s: St, p: nat, pc: Pc): St
    requires p < |s.pc|
  {
    s.(pc := s.pc[p := pc])
  }

  function SetSt(s: St, p: nat, st: PState): St {
    if p < |s.st| then s.(st := s.st[p := st]) else s
  }

  /** The lock sleep(chan, lk) is called with. */
  function Guard(ch: Chan): Lock {
    match ch
    case SleepLock(k) => K(k)
    case _ => W
  }

  /** The lock process p waits for at its control point, if any. */
  function Wants(s: St, p: nat): Option<Lock>
    requires p < |s.pc|
  {
    match s.pc[p]
    case AcqEnter(k) => Some(K(k))
    case RelEnter(k) => Some(K(k))
    case Sleep1(_) => Some(P(p))
    case Sleep5(ch) => Some(Guard(ch))
    case Wake(_, i, _) => if i < |s.st| && i != p then Some(P(i)) else None
    case Yield1 => Some(P(p))
    case Exit1 => Some(W)
    case ExitLock => Some(P(p))
    case Wait1 => Some(W)
    case WaitScan(i, _) => if i < |s.parent| && s.parent[i] == Some(p) then Some(P(i)) else None
    case Fork1(i) => Some(P(i))
    case Fork4(_) => Some(W)
    case Fork6(i) => Some(P(i))
    case Kill1(i) => Some(P(i))
    case _ => None
  }

  function AfterWake(t: Then): Pc {
    match t
    case ToRelease(k) => RelDone(k)
    case ToReparent(j) => Reparent(j)
    case ToExit => ExitLock
  }

  /** freeproc, as far as it concerns this machine */
  function FreeProc(s: St, i: nat): St {
    if i < |s.st| && i < |s.chan| && i < |s.parent| then
      s.(st := s.st[i := Unused], chan := s.chan[i := Nothing], parent := s.parent[i := None])
    else s
  }

  /** A process starts a system call, or goes on in user space. */
  function Start(s: St, p: nat, ch: Choice): St
    requires p < |s.pc|
  {
    match ch
    case Acquire(k) => if k < |s.locked| then At(s, p, AcqEnter(k)) else s
    case Release(k) => if k < |s.locked| then At(s, p, RelEnter(k)) else s
    case Yield => At(s, p, Yield1)
    case Exit => if p != 0 then At(s, p, Exit1) else s          // panic: init exiting
    case Wait => At(s, p, Wait1)
    case Fork(i) => if i < |s.st| then At(s, p, Fork1(i)) else s
    case Kill(i) => if i < |s.st| then At(s, p, Kill1(i)) else s
    case _ => s
  }

  /** The test and the change of a gate's condition, with its spin lock held */
  function GateStep(s: St, p: nat, ch: Choice): St
    requires p < |s.pc|
  {
    match s.pc[p]
    case AcqCheck(k) =>
      if k < |s.locked| && s.locked[k] then At(s, p, Sleep1(SleepLock(k)))
      else if k < |s.locked| then Rel(At(s, p, User).(locked := s.locked[k := ch != Open]), K(k))
      else s
    case RelClear(k) =>
      if k >= |s.locked| then s
      else if ch == Shut then Rel(At(s, p, User).(locked := s.locked[k := true]), K(k))
      else At(s, p, Wake(SleepLock(k), 0, ToRelease(k))).(locked := s.locked[k := ch == Still])
    case _ => s
  }

  /** Entering and leaving a gate, sleep and wakeup */
  function SleepStep(s: St, c: nat, p: nat): St
    requires p < |s.pc| && p < |s.st| && p < |s.chan|
  {
    match s.pc[p]
    case AcqEnter(k) => Acq(At(s, p, AcqCheck(k)), c, K(k))
    case RelEnter(k) => Acq(At(s, p, RelClear(k)), c, K(k))
    case RelDone(k) => Rel(At(s, p, User), K(k))
    case Sleep1(ch) => Acq(At(s, p, Sleep2(ch)), c, P(p))
    case Sleep2(ch) => Rel(At(s, p, Sleep3(ch)), Guard(ch))
    case Sleep3(ch) => At(s, p, Sched(Sleep4(ch))).(chan := s.chan[p := ch], st := s.st[p := Sleeping])
    case Sleep4(ch) => Rel(At(s, p, Sleep5(ch)).(chan := s.chan[p := Nothing]), P(p))
    case Sleep5(ch) => Acq(At(s, p, match ch case SleepLock(k) => AcqCheck(k) case _ => WaitScan(0, false)), c,
      Guard(ch))
    case Wake(ch, i, t) =>
      if i >= |s.st| then At(s, p, AfterWake(t))
      else if i == p then At(s, p, Wake(ch, i + 1, t))
      else Acq(At(s, p, WakeHold(ch, i, t)), c, P(i))
    case WakeHold(ch, i, t) =>
      var woken := if i < |s.st| && i < |s.chan| && s.st[i] == Sleeping && s.chan[i] == ch
        then SetSt(s, i, Runnable) else s;
      Rel(At(woken, p, Wake(ch, i + 1, t)), P(i))
    case _ => s
  }

  /** yield, sched, exit and kill */
  function ExitStep(s: St, c: nat, p: nat): St
    requires p < |s.pc| && p < |s.st| && p < |s.on| && p < |s.parent| && c < |s.cpu|
  {
    match s.pc[p]
    case Yield1 => Acq(At(s, p, Yield2), c, P(p))
    case Yield2 => SetSt(At(s, p, Sched(YieldR)), p, Runnable)
    case YieldR => Rel(At(s, p, User), P(p))
    case ForkRet => Rel(At(s, p, User), P(p))
    case Sched(next) => At(s, p, next).(cpu := s.cpu[c := Back(p)], on := s.on[p := None])
    case Exit1 => Acq(At(s, p, Reparent(0)), c, W)
    case Reparent(j) =>
      if j < |s.parent| then
        if s.parent[j] == Some(p) then At(s, p,
                                       Wake(WaitOf(0), 0, ToReparent(j + 1))).(parent := s.parent[j := Some(0)])
        else At(s, p, Reparent(j + 1))
      else At(s, p, Wake(if s.parent[p].Some? then WaitOf(s.parent[p].value) else Nothing, 0, ToExit))
    case ExitLock => Acq(At(s, p, ExitSet), c, P(p))
    case ExitSet => SetSt(At(s, p, ExitRel), p, Zombie)
    case ExitRel => Rel(At(s, p, Sched(Dead)), W)
    case Kill1(i) => Acq(At(s, p, Kill2(i)), c, P(i))
    case Kill2(i) => Rel(At(if i < |s.st| && s.st[i] == Sleeping then SetSt(s, i, Runnable) else s, p, User), P(i))
    case _ => s
  }

  /** wait and fork */
  function FamilyStep(s: St, c: nat, p: nat, ch: Choice): St
    requires p < |s.pc| && p < |s.st|
  {
    match s.pc[p]
    case Wait1 => Acq(At(s, p, WaitScan(0, false)), c, W)
    case WaitScan(i, kids) =>
      if i < |s.parent| then
        if s.parent[i] == Some(p) then Acq(At(s, p, WaitChild(i)), c, P(i)) else At(s, p, WaitScan(i + 1, kids))
      else if !kids || ch == Fail then At(s, p, WaitOut)
      else At(s, p, Sleep1(WaitOf(p)))
    case WaitChild(i) =>
      if i < |s.st| && s.st[i] == Zombie then
        Rel(if ch == Fail then At(s, p, WaitOut) else At(FreeProc(s, i), p, WaitOut), P(i))
      else Rel(At(s, p, WaitScan(i + 1, true)), P(i))
    case WaitOut => Rel(At(s, p, User), W)
    case Fork1(i) => Acq(At(s, p, Fork2(i)), c, P(i))
    case Fork2(i) =>
      if i < |s.st| && s.st[i] == Unused then SetSt(At(s, p, Fork3(i)), i, Used) else Rel(At(s, p, User), P(i))
    case Fork3(i) => Rel(if ch == Fail then At(FreeProc(s, i), p, User) else At(s, p, Fork4(i)), P(i))
    case Fork4(i) => Acq(At(s, p, Fork5(i)), c, W)
    case Fork5(i) => Rel(At(if i < |s.parent| then s.(parent := s.parent[i := Some(p)]) else s, p, Fork6(i)), W)
    case Fork6(i) => Acq(At(s, p, Fork7(i)), c, P(i))
    case Fork7(i) =>
      var child := if i < |s.st| && i < |s.pc| then SetSt(At(s, i, ForkRet), i, Runnable) else s;
      Rel(At(child, p, User), P(i))
    case _ => s
  }

  predicate InGate(pc: Pc) {
    pc.AcqCheck? || pc.RelClear?
  }

  predicate InSleep(pc: Pc) {
    pc.AcqEnter? || pc.RelEnter? || pc.RelDone? || pc.Sleep1? || pc.Sleep2? || pc.Sleep3?
    || pc.Sleep4? || pc.Sleep5? || pc.Wake? || pc.WakeHold?
  }

  predicate InExit(pc: Pc) {
    pc.Yield1? || pc.Yield2? || pc.YieldR? || pc.ForkRet? || pc.Sched? || pc.Exit1? || pc.Reparent? || pc.ExitLock?
      || pc.ExitSet?
    || pc.ExitRel? || pc.Kill1? || pc.Kill2?
  }

  /** A step of the thread of process p, on CPU c. */
  function ThreadStep(s: St, c: nat, p: nat, ch: Choice): St
    requires Shape(s) && p < |s.pc| && c < |s.cpu|
  {
    if s.pc[p] == User then Start(s, p, ch)
    else if InGate(s.pc[p]) then GateStep(s, p, ch)
    else if InSleep(s.pc[p]) then SleepStep(s, c, p)
    else if InExit(s.pc[p]) then ExitStep(s, c, p)
    else FamilyStep(s, c, p, ch)
  }

  /** A step of the scheduler of CPU c. */
  function SchedStep(s: St, c: nat): St
    requires Shape(s) && c < |s.cpu|
  {
    match s.cpu[c]
    case Scan(i) =>
      if i < |s.st| then Acq(s.(cpu := s.cpu[c := Test(i)]), c, P(i)) else s.(cpu := s.cpu[c := Scan(0)])
    case Test(i) =>
      if i < |s.st| && s.st[i] == Runnable then
        SetSt(s, i, Running).(cpu := s.cpu[c := Go(i)], cproc := s.cproc[c := Some(i)])
      else Rel(s.(cpu := s.cpu[c := Scan(i + 1)]), P(i))
    case Go(i) => if i < |s.on| then s.(cpu := s.cpu[c := Run(i)], on := s.on[i := Some(c)]) else s
    case Back(i) => Rel(s.(cpu := s.cpu[c := Scan(i + 1)], cproc := s.cproc[c := None]), P(i))
    case Run(_) => s
  }

  predicate Shape(s: St) {
    && |s.st| > 0 && |s.chan| == |s.st| && |s.parent| == |s.st| && |s.pc| == |s.st| && |s.on| == |s.st|
    && |s.cproc| == |s.cpu|
  }

  predicate Free(s: St, l: Lock) {
    l !in s.lock
  }

  /** CPU c can take a step: the lock it is about to take, if any, is free. */
  predicate Enabled(s: St, c: nat)
    requires Shape(s)
  {
    && c < |s.cpu|
    && match s.cpu[c]
       case Scan(i) => i < |s.st| ==> Free(s, P(i))
       case Run(p) => p < |s.pc| && (Wants(s, p).Some? ==> Free(s, Wants(s, p).value))
       case _ => true
  }

  function Do(s: St, c: nat, ch: Choice): St
    requires Shape(s) && Enabled(s, c)
  {
    if s.cpu[c].Run? then ThreadStep(s, c, s.cpu[c].p, ch) else SchedStep(s, c)
  }
}
