/** The elementary changes the steps are made of; each keeps the invariant. */
module ProcsMoves {
  import opened Options
  import opened Procs
  import opened ProcsInv

  // ----- a thread moves on, and may take or release a lock -----

  datatype LockOp = Keep | Take(l: Lock) | Drop(l: Lock)

  function Move(s: St, c: nat, p: nat, pc: Pc, op: LockOp): St
    requires p < |s.pc|
  {
    match op
    case Keep => At(s, p, pc)
    case Take(l) => Acq(At(s, p, pc), c, l)
    case Drop(l) => Rel(At(s, p, pc), l)
  }

  /** The locks held at the two control points differ by the lock taken or released. */
  predicate LocksMatch(s: St, p: nat, pc: Pc, op: LockOp)
    requires p < |s.pc|
  {
    match op
    case Keep => Held(pc, p) == Held(s.pc[p], p)
    case Take(l) => l !in s.lock && Held(pc, p) == Held(s.pc[p], p) + {l}
    case Drop(l) => Held(pc, p) == Held(s.pc[p], p) - {l} && l in Held(s.pc[p], p)
  }

  /** No wakeup is left undone that the old control point stood for. */
  ghost predicate WakesDone(s: St, p: nat, pc: Pc)
    requires Shape(s) && p < |s.pc|
  {
    forall ch, q: nat {:trigger Asleep(s, q, ch)} :: Waking(s.pc[p], ch, q) && !Waking(pc, ch, q) ==> !Asleep(s, q, ch)
  }

  /** What the new control point promises about others. */
  ghost predicate Promises(s: St, p: nat, pc: Pc)
    requires Shape(s) && p < |s.pc|
  {
    && (pc.Sleep3? && pc.ch.SleepLock? ==> pc.ch.k < |s.locked| && s.locked[pc.ch.k])
    && (forall z: nat {:trigger ZombieChild(s, p, z)} :: ZombieChild(s, p, z) ==>
          && pc != Sleep1(WaitOf(p)) && pc != Sleep2(WaitOf(p)) && pc != Sleep3(WaitOf(p))
          && (pc.WaitScan? || pc.WaitChild? ==> z >= pc.i))
    && (s.parent[p].Some?
        && (pc.ExitLock? || pc.ExitSet?
            || ((pc.Wake? || pc.WakeHold?) && pc.then_.ToExit? && s.parent[p].value < pc.i)) ==>
          !Asleep(s, s.parent[p].value, WaitOf(s.parent[p].value)))
    && (forall z: nat {:trigger Reparented(pc, z)} :: z < |s.st| && Reparented(pc, z) ==> s.parent[z] != Some(p))
    && (forall p': nat, i: nat {:trigger Forking(s.pc[p'], i)} ::
       p' < |s.st| && i < |s.st| && Forking(pc, i) && Forking(s.pc[p'], i) ==> p' == p)
    && (forall i: nat {:trigger Forking(pc, i)} :: i < |s.st| && Forking(pc, i) ==> s.st[i] == Used)
  }

  predicate PlainPc(pc: Pc) {
    !pc.Sched? && !pc.ExitRel? && !pc.Dead?
  }

  ghost predicate CanMove(s: St, c: nat, p: nat, pc: Pc, op: LockOp) {
    && Shape(s) && p < |s.pc| && c < |s.cpu| && s.cpu[c] == Run(p)
    && LocksMatch(s, p, pc, op) && WakesDone(s, p, pc) && Promises(s, p, pc)
    && ((PlainPc(pc) && PlainPc(s.pc[p])) || (s.pc[p].ExitRel? && pc == Sched(Dead)))
    && PcAt(At(s, p, pc), p) && (pc.Sleep3? ==> s.pc[p] == Sleep2(pc.ch))
  }

  lemma MoveLocks(s: St, c: nat, p: nat, pc: Pc, op: LockOp, c': nat, l: Lock)
    requires Shape(s) && p < |s.pc| && c < |s.cpu| && s.cpu[c] == Run(p) && LocksMatch(s, p, pc, op)
    requires LockAt(s, c, l) && LockAt(s, c', l) && LockRange(s, l) && CpuAt(s, c) && CpuAt(s, c')
    requires op.Drop? ==> LockAt(s, c, op.l)
    ensures LockAt(Move(s, c, p, pc, op), c', l) && LockRange(Move(s, c, p, pc, op), l)
  {
    hide Held;
  }

  lemma MoveCpus(s: St, c: nat, p: nat, pc: Pc, op: LockOp, c': nat)
    requires Shape(s) && p < |s.pc| && CpuAt(s, c')
    ensures CpuAt(Move(s, c, p, pc, op), c')
  {
  }

  lemma MoveProcs(s: St, c: nat, p: nat, pc: Pc, op: LockOp, p': nat)
    requires CanMove(s, c, p, pc, op) && ProcAt(s, p') && ProcAt(s, p) && PcAt(s, p') && ParentAt(s, p') && CpuAt(s, c)
    requires op.Drop? ==> LockAt(s, c, op.l)
    ensures var s' := Move(s, c, p, pc, op); ProcAt(s', p') && PcAt(s', p') && ParentAt(s', p')
  {
    hide Held, WakesDone, Promises;
  }

  /** A wakeup under way goes on, unless it is the thread's own and is done with q. */
  lemma MoveWoken(s: St, c: nat, p: nat, pc: Pc, op: LockOp, q: nat, l: Lock, ch: Chan)
    requires Shape(s) && p < |s.pc| && c < |s.cpu| && s.cpu[c] == Run(p) && LocksMatch(s, p, pc, op)
    requires CpuAt(s, c) && LockAt(s, c, l) && BeingWoken(s, l, ch, q) && CpuAt(s, s.lock[l])
    requires Waking(s.pc[p], ch, q) && s.lock[l] == c ==> Waking(pc, ch, q) && l in Held(pc, p)
    ensures BeingWoken(Move(s, c, p, pc, op), l, ch, q)
  {
    hide Held;
  }

  lemma MoveSleep(s: St, c: nat, p: nat, pc: Pc, op: LockOp, q: nat, k: nat)
    requires CanMove(s, c, p, pc, op) && SleepAt(s, q, k) && CpuAt(s, c)
    requires LockAt(s, c, K(k)) && PcAt(s, p)
    requires BeingWoken(s, K(k), SleepLock(k), q) ==> CpuAt(s, s.lock[K(k)])
    ensures SleepAt(Move(s, c, p, pc, op), q, k)
  {
    hide LocksMatch, Promises, BeingWoken;
    var ch := SleepLock(k);
    PromiseSleep(s, p, pc);
    if k < |s.locked| && Asleep(s, q, ch) && !s.locked[k] {
      assert BeingWoken(s, K(k), ch, q);
      assert Waking(s.pc[p], ch, q) ==> Waking(pc, ch, q) && K(k) in Held(pc, p);
      MoveWoken(s, c, p, pc, op, q, K(k), ch);
    }
  }

  lemma PromiseSleep(s: St, p: nat, pc: Pc)
    requires Shape(s) && p < |s.pc| && Promises(s, p, pc)
    ensures pc.Sleep3? && pc.ch.SleepLock? ==> pc.ch.k < |s.locked| && s.locked[pc.ch.k]
  {
  }

  lemma PromiseScan(s: St, p: nat, pc: Pc, z: nat)
    requires Shape(s) && p < |s.pc| && Promises(s, p, pc) && ZombieChild(s, p, z)
    ensures pc != Sleep1(WaitOf(p)) && pc != Sleep2(WaitOf(p)) && pc != Sleep3(WaitOf(p))
            && (pc.WaitScan? || pc.WaitChild? ==> z >= pc.i)
  {
  }

  lemma MoveWait(s: St, c: nat, p: nat, pc: Pc, op: LockOp, q: nat, z: nat)
    requires CanMove(s, c, p, pc, op) && WaitAt(s, q, z) && CpuAt(s, c) && LockAt(s, c, W) && PcAt(s, p)
    requires BeingWoken(s, W, WaitOf(q), q) ==> CpuAt(s, s.lock[W])
    ensures WaitAt(Move(s, c, p, pc, op), q, z)
  {
    hide LocksMatch, Promises, BeingWoken;
    var ch := WaitOf(q);
    if ZombieChild(s, q, z) {
      if q == p { PromiseScan(s, p, pc, z); }
      if Asleep(s, q, ch) {
        assert BeingWoken(s, W, ch, q);
        assert Waking(s.pc[p], ch, q) ==> Waking(pc, ch, q) && W in Held(pc, p);
        MoveWoken(s, c, p, pc, op, q, W, ch);
      }
    }
  }

  lemma MoveScan(s: St, c: nat, p: nat, pc: Pc, op: LockOp, q: nat, z: nat)
    requires CanMove(s, c, p, pc, op) && ScanAt(s, q, z)
    ensures ScanAt(Move(s, c, p, pc, op), q, z)
  {
    hide LocksMatch, Promises, WakesDone;
    if q == p && ZombieChild(s, q, z) { PromiseScan(s, p, pc, z); }
  }

  lemma MoveExit(s: St, c: nat, p: nat, pc: Pc, op: LockOp, z: nat)
    requires CanMove(s, c, p, pc, op) && ExitAt(s, z) && ProcAt(s, z) && LockAt(s, c, W) && CpuAt(s, c) && PcAt(s, p)
    requires z < |s.st| && s.on[z].Some? ==> LockAt(s, s.on[z].value, W)
    ensures ExitAt(Move(s, c, p, pc, op), z)
  {
    hide Promises, WakesDone, LocksMatch, PcAt, ProcAt;
    PromiseExit(s, p, pc);
    if z < |s.st| && z != p { ExitHolds(s, z); }
  }

  /** exit() holds wait_lock from before it gives its children away until it is a zombie. */
  lemma ExitHolds(s: St, z: nat)
    requires Shape(s) && z < |s.st| && ProcAt(s, z) && (s.on[z].Some? ==> LockAt(s, s.on[z].value, W))
    ensures var pc := s.pc[z];
            pc.ExitLock? || pc.ExitSet? || ((pc.Wake? || pc.WakeHold?) && !pc.then_.ToRelease?) ==>
              s.on[z].Some? && W in s.lock && s.lock[W] == s.on[z].value < |s.cpu| && s.cpu[s.lock[W]] == Run(z)
  {
  }

  lemma PromiseExit(s: St, p: nat, pc: Pc)
    requires Shape(s) && p < |s.pc| && Promises(s, p, pc)
    ensures s.parent[p].Some? && (pc.ExitLock? || pc.ExitSet?
            || ((pc.Wake? || pc.WakeHold?) && pc.then_.ToExit? && s.parent[p].value < pc.i)) ==>
              !Asleep(s, s.parent[p].value, WaitOf(s.parent[p].value))
  {
  }

  lemma MoveOrphan(s: St, c: nat, p: nat, pc: Pc, op: LockOp, q: nat, z: nat)
    requires CanMove(s, c, p, pc, op) && OrphanAt(s, q, z)
    ensures OrphanAt(Move(s, c, p, pc, op), q, z)
  {
    hide LocksMatch, Promises, WakesDone, Reparented;
    PromiseOrphan(s, p, pc, z);
  }

  lemma PromiseOrphan(s: St, p: nat, pc: Pc, z: nat)
    requires Shape(s) && p < |s.pc| && Promises(s, p, pc)
    ensures z < |s.st| && Reparented(pc, z) ==> s.parent[z] != Some(p)
  {
    hide Reparented;
  }

  lemma MoveFork(s: St, c: nat, p: nat, pc: Pc, op: LockOp, q: nat, z: nat)
    requires CanMove(s, c, p, pc, op) && ForkAt(s, q, z)
    ensures ForkAt(Move(s, c, p, pc, op), q, z)
  {
    hide LocksMatch, Promises, WakesDone, Forking;
    var s' := Move(s, c, p, pc, op);
    if q < |s.st| && z < |s.st| {
      forall i | 0 <= i < |s.st| && Forking(s'.pc[q], i) ensures s'.st[i] == Used && (Forking(s'.pc[z], i) ==> q == z) {
        PromiseFork(s, p, pc, q, i);
        PromiseFork(s, p, pc, z, i);
        assert Forking(s.pc[q], i) || q == p;
      }
    }
  }

  lemma PromiseFork(s: St, p: nat, pc: Pc, q: nat, i: nat)
    requires Shape(s) && p < |s.pc| && Promises(s, p, pc) && q < |s.st| && i < |s.st|
    ensures Forking(pc, i) ==> s.st[i] == Used && (Forking(s.pc[q], i) ==> q == p)
  {
    hide Forking;
  }

  lemma MoveInv(s: St, c: nat, p: nat, pc: Pc, op: LockOp)
    requires Inv(s) && CanMove(s, c, p, pc, op)
    ensures Inv(Move(s, c, p, pc, op))
  {
    hide LockAt, LockRange, CpuAt, ProcAt, PcAt, SleepAt, WaitAt, ScanAt, ExitAt, OrphanAt, ParentAt, ForkAt,
         LocksMatch, Promises, WakesDone, BeingWoken;
    var s' := Move(s, c, p, pc, op);
    assert CpuAt(s, c) && ProcAt(s, p) && PcAt(s, p) && LockAt(s, c, W);
    assert op.Drop? ==> LockAt(s, c, op.l);
    forall c': nat, l
      ensures LockAt(s', c', l)
    {
      assert LockAt(s, c, l) && LockAt(s, c', l) && LockRange(s, l) && CpuAt(s, c');
      MoveLocks(s, c, p, pc, op, c', l);
    }
    forall l ensures LockRange(s', l) { assert LockAt(s, c, l) && LockRange(s, l); MoveLocks(s, c, p, pc, op, c, l); }
    forall c': nat ensures CpuAt(s', c') { assert CpuAt(s, c'); MoveCpus(s, c, p, pc, op, c'); }
    forall q: nat
      ensures ProcAt(s', q) && PcAt(s', q) && ParentAt(s', q)
    {
      assert ProcAt(s, q) && PcAt(s, q) && ParentAt(s, q);
      MoveProcs(s, c, p, pc, op, q);
    }
    forall q: nat, k: nat ensures SleepAt(s', q, k) {
      assert SleepAt(s, q, k) && LockAt(s, c, K(k));
      WokenCpu(s, K(k), SleepLock(k), q);
      MoveSleep(s, c, p, pc, op, q, k);
    }
    forall q: nat, z: nat
      ensures WaitAt(s', q, z)
    {
      assert WaitAt(s, q, z);
      WokenCpu(s, W, WaitOf(q), q);
      MoveWait(s, c, p, pc, op, q, z);
    }
    forall q: nat, z: nat ensures ScanAt(s', q, z) { assert ScanAt(s, q, z); MoveScan(s, c, p, pc, op, q, z); }
    forall z: nat ensures ExitAt(s', z) {
      assert ExitAt(s, z) && ProcAt(s, z);
      if z < |s.st| && s.on[z].Some? { assert LockAt(s, s.on[z].value, W); }
      MoveExit(s, c, p, pc, op, z);
    }
    forall q: nat, z: nat ensures OrphanAt(s', q, z) { assert OrphanAt(s, q, z); MoveOrphan(s, c, p, pc, op, q, z); }
    forall q: nat, z: nat ensures ForkAt(s', q, z) { assert ForkAt(s, q, z); MoveFork(s, c, p, pc, op, q, z); }
  }

  lemma WokenCpu(s: St, l: Lock, ch: Chan, q: nat)
    requires Inv(s)
    ensures BeingWoken(s, l, ch, q) ==> CpuAt(s, s.lock[l])
  {
    hide CpuAt;
    if l in s.lock { assert CpuAt(s, s.lock[l]); }
  }
}
