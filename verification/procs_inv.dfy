/**
 What holds in every state the machine of processes, CPUs and locks can reach:
 no wakeup is lost, no process runs on two CPUs, and no process has a parent
 that has exited.
 */
module ProcsInv {
  import opened Options
  import opened Procs

  // ----- which locks a CPU holds -----

  function Base(t: Then): Lock {
    match t
    case ToRelease(k) => K(k)
    case _ => W
  }

  /** The locks the thread of p holds at a control point. */
  function Held(pc: Pc, p: nat): set<Lock> {
    match pc
    case AcqCheck(k) => {K(k)}
    case RelClear(k) => {K(k)}
    case RelDone(k) => {K(k)}
    case Sleep1(ch) => {Guard(ch)}
    case Sleep2(ch) => {Guard(ch), P(p)}
    case Sleep3(_) => {P(p)}
    case Sleep4(_) => {P(p)}
    case Wake(_, _, t) => {Base(t)}
    case WakeHold(_, i, t) => {Base(t), P(i)}
    case Yield2 => {P(p)}
    case YieldR => {P(p)}
    case ForkRet => {P(p)}
    case Sched(_) => {P(p)}
    case Reparent(_) => {W}
    case ExitLock => {W}
    case ExitSet => {W, P(p)}
    case ExitRel => {W, P(p)}
    case WaitScan(_, _) => {W}
    case WaitChild(i) => {W, P(i)}
    case WaitOut => {W}
    case Fork2(i) => {P(i)}
    case Fork3(i) => {P(i)}
    case Fork5(_) => {W}
    case Fork7(i) => {P(i)}
    case Kill2(i) => {P(i)}
    case _ => {}
  }

  function HeldBy(s: St, c: nat): set<Lock>
    requires c < |s.cpu|
  {
    match s.cpu[c]
    case Scan(_) => {}
    case Test(i) => {P(i)}
    case Go(i) => {P(i)}
    case Back(i) => {P(i)}
    case Run(p) => if p < |s.pc| then Held(s.pc[p], p) else {}
  }

  /** A lock is held by the CPU whose control point says so. */
  predicate LockAt(s: St, c: nat, l: Lock) {
    c < |s.cpu| ==> ((l in s.lock && s.lock[l] == c) <==> l in HeldBy(s, c))
  }

  predicate LockRange(s: St, l: Lock) {
    l in s.lock ==> s.lock[l] < |s.cpu|
  }

  // ----- CPUs and process states -----

  predicate CpuAt(s: St, c: nat) {
    c < |s.cpu| && c < |s.cproc| ==>
      match s.cpu[c]
      case Scan(_) => s.cproc[c] == None
      case Test(i) => s.cproc[c] == None && i < |s.st|
      case Go(i) => s.cproc[c] == Some(i) && i < |s.st| && i < |s.on| && s.st[i] == Running && s.on[i] == None
      case Run(p) => s.cproc[c] == Some(p) && p < |s.on| && s.on[p] == Some(c)
      case Back(i) => s.cproc[c] == Some(i) && i < |s.st| && i < |s.on| && s.st[i] != Running && s.on[i] == None
  }

  /** The state of a process agrees with where its thread is. */
  predicate ProcAt(s: St, p: nat)
    requires Shape(s)
  {
    p < |s.st| ==>
      && (s.on[p].Some? ==> s.on[p].value < |s.cpu| && s.cpu[s.on[p].value] == Run(p))
      && match s.st[p]
         case Unused => s.on[p] == None && s.parent[p] == None && s.pc[p] == Dead
         case Used => s.on[p] == None && s.pc[p] == Dead
         case Sleeping => s.pc[p] == (if s.on[p].Some? then Sched(Sleep4(s.chan[p])) else Sleep4(s.chan[p]))
         case Runnable => if s.on[p].Some? then s.pc[p] == Sched(YieldR) else s.pc[p].Sleep4? || s.pc[p].YieldR?
                                                                              || s.pc[p].ForkRet?
         case Running =>
           if s.on[p].Some? then !s.pc[p].Sched? && !s.pc[p].ExitRel? && !s.pc[p].Dead?
           else
             && P(p) in s.lock && s.lock[P(p)] < |s.cpu| && s.cpu[s.lock[P(p)]] == Go(p)
             && (s.pc[p].Sleep4? || s.pc[p].YieldR? || s.pc[p].ForkRet?)
         case Zombie => if s.on[p].Some? then s.pc[p].ExitRel? || s.pc[p] == Sched(Dead) else s.pc[p] == Dead
  }

  predicate Exiting(pc: Pc) {
    pc.Exit1? || pc.Reparent? || pc.ExitLock? || pc.ExitSet? || pc.ExitRel? || pc == Sched(Dead) || pc == Dead
    || ((pc.Wake? || pc.WakeHold?) && !pc.then_.ToRelease?)
  }

  predicate Sleepy(pc: Pc) {
    pc.Sleep1? || pc.Sleep2? || pc.Sleep3? || pc.Sleep4? || pc.Sleep5?
  }

  /** fork() has chosen a slot. */
  predicate Slotted(pc: Pc) {
    pc.Fork1? || pc.Fork2? || pc.Fork3? || pc.Fork4? || pc.Fork5? || pc.Fork6? || pc.Fork7?
  }

  /** Sleep locks exist; wait() sleeps on the process itself; wakeup() has the channel its caller gave. */
  predicate PcAt(s: St, p: nat)
    requires Shape(s)
  {
    p < |s.pc| ==>
      var pc := s.pc[p];
      && (p == 0 ==> !Exiting(pc) && s.st[p] != Unused && s.st[p] != Used && s.st[p] != Zombie)
      && (Sleepy(pc) ==> (pc.ch.SleepLock? && pc.ch.k < |s.locked|) || pc.ch == WaitOf(p))
      && ((pc.Sleep1? || pc.Sleep2?) && pc.ch.SleepLock? ==> s.locked[pc.ch.k])
      && (pc.Sched? ==> pc.next == YieldR || pc.next == Dead
                        || (pc.next.Sleep4? && ((pc.next.ch.SleepLock? && pc.next.ch.k < |s.locked|)
                        || pc.next.ch == WaitOf(p))))
      && (pc.AcqEnter? || pc.AcqCheck? || pc.RelEnter? || pc.RelClear? || pc.RelDone? ==> pc.k < |s.locked|)
      && (pc.Wake? || pc.WakeHold? ==>
            match pc.then_
            case ToRelease(k) => k < |s.locked| && pc.ch == SleepLock(k)
            case ToReparent(_) => pc.ch == WaitOf(0)
            case ToExit => pc.ch == if s.parent[p].Some? then WaitOf(s.parent[p].value) else Nothing)
      && (pc.WakeHold? || pc.WaitChild? || Slotted(pc) || pc.Kill1? || pc.Kill2? ==> pc.i < |s.st|)
  }

  // ----- sleeping and waking -----

  /** p has released the lock that guards channel ch and sleeps, or is about to. */
  predicate Asleep(s: St, p: nat, ch: Chan)
    requires Shape(s)
  {
    p < |s.st| && (s.pc[p] == Sleep3(ch) || (s.st[p] == Sleeping && s.chan[p] == ch))
  }

  /** A wakeup on ch is under way that has still to look at process p. */
  predicate Waking(pc: Pc, ch: Chan, p: nat) {
    (pc.Wake? || pc.WakeHold?) && pc.ch == ch && pc.i <= p
  }

  /** The holder of lock l is running such a wakeup. */
  predicate BeingWoken(s: St, l: Lock, ch: Chan, p: nat) {
    && l in s.lock && s.lock[l] < |s.cpu| && s.cpu[s.lock[l]].Run? && s.cpu[s.lock[l]].p < |s.pc|
    && Waking(s.pc[s.cpu[s.lock[l]].p], ch, p)
  }

  /** Who sleeps on a sleep lock that is not locked is about to be woken. */
  predicate SleepAt(s: St, p: nat, k: nat)
    requires Shape(s)
  {
    k < |s.locked| && Asleep(s, p, SleepLock(k)) ==> s.locked[k] || BeingWoken(s, K(k), SleepLock(k), p)
  }

  predicate ZombieChild(s: St, q: nat, z: nat)
    requires Shape(s)
  {
    z < |s.st| && s.parent[z] == Some(q) && s.st[z] == Zombie
  }

  /** Who sleeps in wait() with a zombie child is about to be woken. */
  predicate WaitAt(s: St, q: nat, z: nat)
    requires Shape(s)
  {
    Asleep(s, q, WaitOf(q)) && ZombieChild(s, q, z) ==> BeingWoken(s, W, WaitOf(q), q)
  }

  /** wait() holds wait_lock and has found no zombie among the processes it has looked at. */
  predicate ScanAt(s: St, q: nat, z: nat)
    requires Shape(s)
  {
    q < |s.st| && ZombieChild(s, q, z) ==>
      var pc := s.pc[q];
      && !(pc == Sleep1(WaitOf(q)) || pc == Sleep2(WaitOf(q)))
      && (pc.WaitScan? || pc.WaitChild? ==> z >= pc.i)
  }

  /** exit() has woken its parent, and holds wait_lock. */
  predicate ExitAt(s: St, z: nat)
    requires Shape(s)
  {
    z < |s.st| && s.parent[z].Some? ==>
      var pc, q := s.pc[z], s.parent[z].value;
      pc.ExitLock? || pc.ExitSet? || ((pc.Wake? || pc.WakeHold?) && pc.then_.ToExit? && q < pc.i) ==>
        !Asleep(s, q, WaitOf(q))
  }

  // ----- parents -----

  /** reparent() has come past process z. */
  predicate Reparented(pc: Pc, z: nat) {
    match pc
    case Reparent(j) => z < j
    case Wake(_, _, t) => t.ToExit? || (t.ToReparent? && z < t.j)
    case WakeHold(_, _, t) => t.ToExit? || (t.ToReparent? && z < t.j)
    case ExitLock => true
    case ExitSet => true
    case _ => false
  }

  /** A process that exits gives its children away. */
  predicate OrphanAt(s: St, p: nat, z: nat)
    requires Shape(s)
  {
    p < |s.st| && z < |s.st| && Reparented(s.pc[p], z) ==> s.parent[z] != Some(p)
  }

  predicate Alive(st: PState) {
    st == Runnable || st == Running || st == Sleeping
  }

  /** A parent is neither a zombie nor an unused slot. */
  predicate ParentAt(s: St, z: nat)
    requires Shape(s)
  {
    z < |s.st| && s.parent[z].Some? ==> s.parent[z].value < |s.st| && Alive(s.st[s.parent[z].value])
  }

  predicate Forking(pc: Pc, i: nat) {
    (pc.Fork3? || pc.Fork4? || pc.Fork5? || pc.Fork6? || pc.Fork7?) && pc.i == i
  }

  /** The slot a process forks into is in no other hands. */
  predicate ForkAt(s: St, p: nat, p': nat)
    requires Shape(s)
  {
    p < |s.st| && p' < |s.st| ==>
      forall i :: 0 <= i < |s.st| && Forking(s.pc[p], i) ==> s.st[i] == Used && (Forking(s.pc[p'], i) ==> p == p')
  }

  ghost predicate Inv(s: St) {
    && Shape(s)
    && (forall c: nat, l {:trigger LockAt(s, c, l)} :: LockAt(s, c, l))
    && (forall l {:trigger LockRange(s, l)} :: LockRange(s, l))
    && (forall c: nat {:trigger CpuAt(s, c)} :: CpuAt(s, c))
    && (forall p: nat {:trigger ProcAt(s, p)} :: ProcAt(s, p))
    && (forall p: nat {:trigger PcAt(s, p)} :: PcAt(s, p))
    && (forall p: nat, k: nat {:trigger SleepAt(s, p, k)} :: SleepAt(s, p, k))
    && (forall q: nat, z: nat {:trigger WaitAt(s, q, z)} :: WaitAt(s, q, z))
    && (forall q: nat, z: nat {:trigger ScanAt(s, q, z)} :: ScanAt(s, q, z))
    && (forall z: nat {:trigger ExitAt(s, z)} :: ExitAt(s, z))
    && (forall p: nat, z: nat {:trigger OrphanAt(s, p, z)} :: OrphanAt(s, p, z))
    && (forall z: nat {:trigger ParentAt(s, z)} :: ParentAt(s, z))
    && (forall p: nat, p': nat {:trigger ForkAt(s, p, p')} :: ForkAt(s, p, p'))
  }
}
