/** The elementary changes to process states, parents and CPUs; each keeps the invariant. */
module ProcsData {
  import opened Options
  import opened Procs
  import opened ProcsInv
  import opened ProcsMoves

  /** Two states with the same control points and locks. */
  predicate SameControl(s: St, s': St) {
    s'.pc == s.pc && s'.on == s.on && s'.cpu == s.cpu && s'.cproc == s.cproc && s'.lock == s.lock
  }

  lemma SameControlKeeps(s: St, s': St)
    requires Inv(s) && SameControl(s, s') && Shape(s') && |s'.st| == |s.st|
    requires forall c: nat :: c < |s.cpu| && (s.cpu[c].Go? || s.cpu[c].Back?) && s.cpu[c].i < |s.st| ==>
                                (s'.st[s.cpu[c].i] == Running <==> s.st[s.cpu[c].i] == Running)
    ensures forall c: nat, l {:trigger LockAt(s', c, l)} :: LockAt(s', c, l)
    ensures forall l {:trigger LockRange(s', l)} :: LockRange(s', l)
    ensures forall c: nat {:trigger CpuAt(s', c)} :: CpuAt(s', c)
  {
    hide Held, ProcAt, PcAt, SleepAt, WaitAt, ScanAt, ExitAt, OrphanAt, ParentAt, ForkAt;
    forall c: nat, l ensures LockAt(s', c, l) { assert LockAt(s, c, l); }
    forall l ensures LockRange(s', l) { assert LockRange(s, l); }
    forall c: nat ensures CpuAt(s', c) { assert CpuAt(s, c); }
  }

  // ----- sleep locks -----

  lemma SetLockedInv(s: St, k: nat, b: bool)
    requires Inv(s) && k < |s.locked| && (b || BeingWoken(s, K(k), SleepLock(k), 0))
    ensures Inv(s.(locked := s.locked[k := b]))
  {
    var s' := s.(locked := s.locked[k := b]);
    SameControlKeeps(s, s');
    forall p: nat ensures ProcAt(s', p) && PcAt(s', p) && ParentAt(s', p) {
      assert ProcAt(s, p) && PcAt(s, p) && ParentAt(s, p);
      if !b { NotFalling(s, k, p); }
    }
    forall p: nat, j: nat ensures SleepAt(s', p, j) { assert SleepAt(s, p, j); }
    forall q: nat, z: nat ensures WaitAt(s', q, z) && ScanAt(s', q, z) && OrphanAt(s', q, z) && ForkAt(s', q, z) {
      assert WaitAt(s, q, z) && ScanAt(s, q, z) && OrphanAt(s, q, z) && ForkAt(s, q, z);
    }
    forall z: nat ensures ExitAt(s', z) { assert ExitAt(s, z); }
  }

  /** While a process wakes the sleepers of a sleep lock, no other has its spin lock in order to sleep on it. */
  lemma NotFalling(s: St, k: nat, p: nat)
    requires Inv(s) && BeingWoken(s, K(k), SleepLock(k), 0)
    ensures p < |s.st| ==> s.pc[p] != Sleep1(SleepLock(k)) && s.pc[p] != Sleep2(SleepLock(k))
  {
    hide ScanAt, WaitAt, ExitAt, OrphanAt, ForkAt, ParentAt, SleepAt;
    if p < |s.st| {
      assert ProcAt(s, p);
      if s.on[p].Some? { assert LockAt(s, s.on[p].value, K(k)); }
    }
  }

  lemma ClearChanInv(s: St, p: nat)
    requires Inv(s) && p < |s.st| && s.st[p] == Running
    ensures Inv(s.(chan := s.chan[p := Nothing]))
  {
    var s' := s.(chan := s.chan[p := Nothing]);
    SameControlKeeps(s, s');
    forall p: nat
      ensures ProcAt(s', p) && PcAt(s', p) && ParentAt(s', p)
    {
      assert ProcAt(s, p) && PcAt(s, p) && ParentAt(s, p);
    }
    forall p: nat, j: nat ensures SleepAt(s', p, j) { assert SleepAt(s, p, j); }
    forall q: nat, z: nat ensures WaitAt(s', q, z) && ScanAt(s', q, z) && OrphanAt(s', q, z) && ForkAt(s', q, z) {
      assert WaitAt(s, q, z) && ScanAt(s, q, z) && OrphanAt(s, q, z) && ForkAt(s, q, z);
    }
    forall z: nat ensures ExitAt(s', z) { assert ExitAt(s, z); }
  }

  /** A process asleep becomes runnable. */
  lemma WakeInv(s: St, i: nat)
    requires Inv(s) && i < |s.st| && s.st[i] == Sleeping && s.on[i] == None
    ensures Inv(SetSt(s, i, Runnable))
  {
    var s' := SetSt(s, i, Runnable);
    SameControlKeeps(s, s');
    forall p: nat
      ensures ProcAt(s', p) && PcAt(s', p) && ParentAt(s', p)
    {
      assert ProcAt(s, p) && PcAt(s, p) && ParentAt(s, p);
    }
    forall p: nat, j: nat ensures SleepAt(s', p, j) { assert SleepAt(s, p, j); }
    forall q: nat, z: nat ensures WaitAt(s', q, z) && ScanAt(s', q, z) && OrphanAt(s', q, z) && ForkAt(s', q, z) {
      assert WaitAt(s, q, z) && ScanAt(s, q, z) && OrphanAt(s, q, z) && ForkAt(s, q, z);
    }
    forall z: nat ensures ExitAt(s', z) { assert ExitAt(s, z); }
  }

  // ----- slots of the process table -----

  /** A free slot is taken. */
  lemma UseInv(s: St, i: nat)
    requires Inv(s) && i < |s.st| && s.st[i] == Unused
    ensures Inv(SetSt(s, i, Used))
    ensures forall p: nat :: p < |s.st| ==> !Forking(s.pc[p], i)
  {
    var s' := SetSt(s, i, Used);
    SameControlKeeps(s, s');
    forall p: nat
      ensures ProcAt(s', p) && PcAt(s', p) && ParentAt(s', p)
    {
      assert ProcAt(s, p) && PcAt(s, p) && ParentAt(s, p);
    }
    forall p: nat, j: nat ensures SleepAt(s', p, j) { assert SleepAt(s, p, j); }
    forall q: nat, z: nat ensures WaitAt(s', q, z) && ScanAt(s', q, z) && OrphanAt(s', q, z) && ForkAt(s', q, z) {
      assert WaitAt(s, q, z) && ScanAt(s, q, z) && OrphanAt(s, q, z) && ForkAt(s, q, z);
    }
    forall z: nat ensures ExitAt(s', z) { assert ExitAt(s, z); }
    forall p: nat | p < |s.st| ensures !Forking(s.pc[p], i) { assert ForkAt(s, p, p); }
  }

  /** A slot becomes free: a zombie's, or one that nobody forks into any more. */
  lemma FreeInv(s: St, i: nat)
    requires Inv(s) && i < |s.st| && s.on[i] == None
    requires s.st[i] == Zombie || (s.st[i] == Used && forall p: nat :: p < |s.st| ==> !Forking(s.pc[p], i))
    ensures Inv(FreeProc(s, i))
  {
    var s' := FreeProc(s, i);
    SameControlKeeps(s, s');
    assert ProcAt(s, i) && PcAt(s, i);
    forall p: nat
      ensures ProcAt(s', p) && PcAt(s', p) && ParentAt(s', p)
    {
      assert ProcAt(s, p) && PcAt(s, p) && ParentAt(s, p);
    }
    forall p: nat, j: nat ensures SleepAt(s', p, j) { assert SleepAt(s, p, j); }
    forall q: nat, z: nat ensures WaitAt(s', q, z) && ScanAt(s', q, z) && OrphanAt(s', q, z) && ForkAt(s', q, z) {
      assert WaitAt(s, q, z) && ScanAt(s, q, z) && OrphanAt(s, q, z) && ForkAt(s, q, z);
    }
    forall z: nat ensures ExitAt(s', z) { assert ExitAt(s, z); }
  }

  /** A forked process becomes runnable. */
  lemma ActivateInv(s: St, i: nat)
    requires Inv(s) && i < |s.st| && s.st[i] == Used && forall p: nat :: p < |s.st| ==> !Forking(s.pc[p], i)
    ensures Inv(Activate(s, i))
  {
    hide Held, LockAt, LockRange, CpuAt, ProcAt, PcAt, SleepAt, WaitAt, ScanAt, ExitAt, OrphanAt, ParentAt, ForkAt,
         BeingWoken, Activate;
    var s' := Activate(s, i);
    ActivateShape(s, i);
    assert ProcAt(s, i);
    forall c: nat, l
      ensures LockAt(s', c, l)
    {
      assert LockAt(s, c, l) && LockRange(s, l) && CpuAt(s, c);
      ActivateCpu(s, i, c, l);
    }
    forall l
      ensures LockRange(s', l)
    {
      assert LockAt(s, 0, l) && LockRange(s, l) && CpuAt(s, 0);
      ActivateCpu(s, i, 0, l);
    }
    forall c: nat
      ensures CpuAt(s', c)
    {
      assert LockAt(s, c, W) && LockRange(s, W) && CpuAt(s, c);
      ActivateCpu(s, i, c, W);
    }
    forall x: nat ensures ProcAt(s', x) && PcAt(s', x) && ParentAt(s', x) && ExitAt(s', x) {
      assert ProcAt(s, x) && PcAt(s, x) && ParentAt(s, x) && ExitAt(s, x);
      ActivateProc(s, i, x);
    }
    forall x: nat, k: nat
      ensures SleepAt(s', x, k)
    {
      assert SleepAt(s, x, k);
      WokenCpu(s, K(k), SleepLock(k), x);
      ActivateSleep(s, i, x, k);
    }
    forall q: nat, z: nat ensures WaitAt(s', q, z) && ScanAt(s', q, z) && OrphanAt(s', q, z) && ForkAt(s', q, z) {
      assert WaitAt(s, q, z) && ScanAt(s, q, z) && OrphanAt(s, q, z) && ForkAt(s, q, z);
      WokenCpu(s, W, WaitOf(q), q);
      ActivatePair(s, i, q, z);
    }
  }

  function Activate(s: St, i: nat): St
    requires i < |s.pc|
  {
    SetSt(At(s, i, ForkRet), i, Runnable)
  }

  lemma ActivateShape(s: St, i: nat)
    requires Shape(s) && i < |s.st|
    ensures Shape(Activate(s, i))
  {
  }

  lemma ActivateCpu(s: St, i: nat, c: nat, l: Lock)
    requires Shape(s) && i < |s.st| && s.st[i] == Used && ProcAt(s, i) && LockAt(s, c, l) && LockRange(s, l)
             && CpuAt(s, c)
    ensures var s' := Activate(s, i); LockAt(s', c, l) && LockRange(s', l) && CpuAt(s', c)
  {
    hide Held;
  }

  lemma ActivateProc(s: St, i: nat, x: nat)
    requires Shape(s) && i < |s.st| && s.st[i] == Used && ProcAt(s, i) && ProcAt(s, x) && PcAt(s, x) && ParentAt(s, x)
             && ExitAt(s, x)
    ensures var s' := Activate(s, i); ProcAt(s', x) && PcAt(s', x) && ParentAt(s', x) && ExitAt(s', x)
  {
  }

  lemma ActivateSleep(s: St, i: nat, x: nat, k: nat)
    requires Shape(s) && i < |s.st| && s.st[i] == Used && ProcAt(s, i) && SleepAt(s, x, k)
    ensures SleepAt(Activate(s, i), x, k)
  {
  }

  lemma ActivatePair(s: St, i: nat, q: nat, z: nat)
    requires Shape(s) && i < |s.st| && s.st[i] == Used && ProcAt(s, i) && !(q < |s.st| && Forking(s.pc[q], i))
    requires WaitAt(s, q, z) && ScanAt(s, q, z) && OrphanAt(s, q, z) && ForkAt(s, q, z)
    ensures var s' := Activate(s, i); WaitAt(s', q, z) && ScanAt(s', q, z) && OrphanAt(s', q, z) && ForkAt(s', q, z)
  {
  }

  // ----- parents -----

  /** A new process gets its parent, which holds wait_lock. */
  lemma AdoptInv(s: St, i: nat, p: nat)
    requires Inv(s) && i < |s.st| && s.st[i] == Used && p < |s.st| && s.st[p] == Running && s.pc[p].Fork5?
    ensures Inv(s.(parent := s.parent[i := Some(p)]))
  {
    var s' := s.(parent := s.parent[i := Some(p)]);
    SameControlKeeps(s, s');
    assert ProcAt(s, i) && ProcAt(s, p);
    forall p: nat
      ensures ProcAt(s', p) && PcAt(s', p) && ParentAt(s', p)
    {
      assert ProcAt(s, p) && PcAt(s, p) && ParentAt(s, p);
    }
    forall p: nat, j: nat ensures SleepAt(s', p, j) { assert SleepAt(s, p, j); }
    forall q: nat, z: nat ensures WaitAt(s', q, z) && ScanAt(s', q, z) && OrphanAt(s', q, z) && ForkAt(s', q, z) {
      assert WaitAt(s, q, z) && ScanAt(s, q, z) && OrphanAt(s, q, z) && ForkAt(s, q, z);
    }
    forall z: nat ensures ExitAt(s', z) { assert ExitAt(s, z); }
  }

  /** A child of p is given to init, while p, which holds wait_lock, is about to wake init. */
  lemma ReparentInv(s: St, c: nat, p: nat, j: nat, t: Then)
    requires Inv(s) && c < |s.cpu| && s.cpu[c] == Run(p) && p < |s.st| && s.pc[p] == Wake(WaitOf(0), 0, t)
             && t.ToReparent? && p != 0
    requires j < |s.st| && s.parent[j] == Some(p)
    ensures Inv(s.(parent := s.parent[j := Some(0)]))
  {
    hide Held, LockAt, LockRange, CpuAt, ProcAt, PcAt, SleepAt, WaitAt, ScanAt, ExitAt, OrphanAt, ParentAt, ForkAt;
    var s' := s.(parent := s.parent[j := Some(0)]);
    SameControlKeeps(s, s');
    InitWoken(s, c, p, t);
    NotInFamily(s, c, p, 0);
    if j != p { NotInFamily(s, c, p, j); }
    assert PcAt(s, 0);
    forall x: nat ensures ProcAt(s', x) && PcAt(s', x) && ParentAt(s', x) && ExitAt(s', x) {
      assert ProcAt(s, x) && PcAt(s, x) && ParentAt(s, x) && ExitAt(s, x);
      ReparentProc(s, p, j, x);
    }
    forall x: nat, k: nat ensures SleepAt(s', x, k) { assert SleepAt(s, x, k); ReparentSleep(s, j, x, k); }
    forall q: nat, z: nat ensures WaitAt(s', q, z) && ScanAt(s', q, z) && OrphanAt(s', q, z) && ForkAt(s', q, z) {
      assert WaitAt(s, q, z) && ScanAt(s, q, z) && OrphanAt(s, q, z) && ForkAt(s, q, z) && PcAt(s, q);
      ReparentPair(s, j, q, z);
    }
  }

  lemma InitWoken(s: St, c: nat, p: nat, t: Then)
    requires Inv(s) && c < |s.cpu| && s.cpu[c] == Run(p) && p < |s.st| && s.pc[p] == Wake(WaitOf(0), 0, t)
             && t.ToReparent?
    ensures BeingWoken(s, W, WaitOf(0), 0) && W in Held(s.pc[p], p)
  {
    assert LockAt(s, c, W);
  }

  lemma ReparentProc(s: St, p: nat, j: nat, x: nat)
    requires Shape(s) && j < |s.st| && s.parent[j] == Some(p) && PcAt(s, 0) && (j != p ==> !InFamily(s.pc[j]))
    requires ProcAt(s, x) && PcAt(s, x) && ParentAt(s, x) && ExitAt(s, x) && p < |s.st| && s.pc[p].Wake?
             && s.pc[p].then_.ToReparent?
    ensures var s' := s.(parent := s.parent[j := Some(0)]);
            ProcAt(s', x) && PcAt(s', x) && ParentAt(s', x) && ExitAt(s', x)
  {
  }

  lemma ReparentSleep(s: St, j: nat, x: nat, k: nat)
    requires Shape(s) && j < |s.st| && SleepAt(s, x, k)
    ensures SleepAt(s.(parent := s.parent[j := Some(0)]), x, k)
  {
  }

  lemma ReparentPair(s: St, j: nat, q: nat, z: nat)
    requires Shape(s) && j < |s.st| && BeingWoken(s, W, WaitOf(0), 0) && !InFamily(s.pc[0]) && PcAt(s, q)
    requires WaitAt(s, q, z) && ScanAt(s, q, z) && OrphanAt(s, q, z) && ForkAt(s, q, z)
    ensures var s' := s.(parent := s.parent[j := Some(0)]); WaitAt(s', q, z) && ScanAt(s', q, z) && OrphanAt(s', q, z)
                                                            && ForkAt(s', q, z)
  {
  }

  /** Points of wait() and exit() at which wait_lock is held. */
  predicate InFamily(pc: Pc) {
    pc.WaitScan? || pc.WaitChild? || (pc.Sleep1? && !pc.ch.SleepLock?) || (pc.Sleep2? && !pc.ch.SleepLock?)
    || pc.ExitLock? || pc.ExitSet? || ((pc.Wake? || pc.WakeHold?) && !pc.then_.ToRelease?)
  }

  /** While p holds wait_lock no other process is at such a point. */
  lemma NotInFamily(s: St, c: nat, p: nat, q: nat)
    requires Inv(s) && c < |s.cpu| && s.cpu[c] == Run(p) && p < |s.st| && W in Held(s.pc[p], p) && q < |s.st| && q != p
    ensures !InFamily(s.pc[q])
  {
    assert CpuAt(s, c) && ProcAt(s, q) && LockAt(s, c, W);
    if s.on[q].Some? { assert LockAt(s, s.on[q].value, W) && CpuAt(s, s.on[q].value); }
  }

  // ----- leaving the CPU -----

  /** The thread changes the state of its own process, with p->lock held. */
  function Change(s: St, p: nat, pc: Pc, st: PState, ch: Chan): St
    requires p < |s.pc| && p < |s.st| && p < |s.chan|
  {
    s.(pc := s.pc[p := pc], st := s.st[p := st], chan := s.chan[p := ch])
  }

  /** The three ways to do so: to sleep, to yield, to exit. */
  predicate Changes(s: St, p: nat, pc: Pc, st: PState, ch: Chan)
    requires Shape(s) && p < |s.pc|
  {
    || (s.pc[p].Sleep3? && pc == Sched(Sleep4(ch)) && st == Sleeping && ch == s.pc[p].ch)
    || (s.pc[p].Yield2? && pc == Sched(YieldR) && st == Runnable && ch == s.chan[p])
    || (s.pc[p].ExitSet? && pc == ExitRel && st == Zombie && ch == s.chan[p])
  }

  lemma ChangeInv(s: St, c: nat, p: nat, pc: Pc, st: PState, ch: Chan)
    requires Inv(s) && c < |s.cpu| && s.cpu[c] == Run(p) && p < |s.st| && Changes(s, p, pc, st, ch)
    ensures Inv(Change(s, p, pc, st, ch))
  {
    hide LockAt, LockRange, CpuAt, ProcAt, PcAt, SleepAt, WaitAt, ScanAt, ExitAt, OrphanAt, ParentAt, ForkAt, Held,
         Changes;
    var s' := Change(s, p, pc, st, ch);
    assert CpuAt(s, c) && ProcAt(s, p) && PcAt(s, p) && LockAt(s, c, P(p)) && LockAt(s, c, W) && ExitAt(s, p);
    forall c': nat, l ensures LockAt(s', c', l) && LockRange(s', l) && CpuAt(s', c') {
      assert LockAt(s, c', l) && LockRange(s, l) && CpuAt(s, c');
      ChangeCpu(s, c, p, pc, st, ch, c', l);
    }
    assert forall l {:trigger LockRange(s', l)} :: LockRange(s', l)
           by { forall l ensures LockRange(s', l) { assert LockAt(s', c, l); } }
    assert forall c': nat {:trigger CpuAt(s', c')} :: CpuAt(s', c')
           by { forall c': nat ensures CpuAt(s', c') { assert LockAt(s', c', W); } }
    forall x: nat ensures ProcAt(s', x) && PcAt(s', x) && ParentAt(s', x) && ExitAt(s', x) {
      assert ProcAt(s, x) && PcAt(s, x) && ParentAt(s, x) && ExitAt(s, x) && OrphanAt(s, p, x);
      ChangeProc(s, c, p, pc, st, ch, x);
      ChangeExit(s, p, pc, st, ch, x);
    }
    forall x: nat, k: nat
      ensures SleepAt(s', x, k)
    {
      assert SleepAt(s, x, k);
      WokenCpu(s, K(k), SleepLock(k), x);
      ChangeSleep(s, c, p, pc, st, ch, x, k);
    }
    forall q: nat, z: nat ensures WaitAt(s', q, z) && ScanAt(s', q, z) && OrphanAt(s', q, z) && ForkAt(s', q, z) {
      assert WaitAt(s, q, z) && ScanAt(s, q, z) && OrphanAt(s, q, z) && ForkAt(s, q, z) && ForkAt(s, q, q);
      WokenCpu(s, W, WaitOf(q), q);
      if s.pc[p].ExitSet? && q < |s.st| && q != p { ExitSetHolds(s, p); NotInFamily(s, c, p, q); }
      ChangePair(s, c, p, pc, st, ch, q, z);
    }
  }

  lemma ExitSetHolds(s: St, p: nat)
    requires p < |s.pc| && s.pc[p].ExitSet?
    ensures W in Held(s.pc[p], p)
  {
  }

  lemma ChangeCpu(s: St, c: nat, p: nat, pc: Pc, st: PState, ch: Chan, c': nat, l: Lock)
    requires Shape(s) && c < |s.cpu| && s.cpu[c] == Run(p) && p < |s.st| && Changes(s, p, pc, st, ch)
    requires CpuAt(s, c) && LockAt(s, c', l) && LockRange(s, l) && CpuAt(s, c')
    ensures var s' := Change(s, p, pc, st, ch); LockAt(s', c', l) && LockRange(s', l) && CpuAt(s', c')
  {
    assert Held(pc, p) == Held(s.pc[p], p);
    hide Held;
  }

  lemma ChangeProc(s: St, c: nat, p: nat, pc: Pc, st: PState, ch: Chan, x: nat)
    requires Shape(s) && c < |s.cpu| && s.cpu[c] == Run(p) && p < |s.st| && Changes(s, p, pc, st, ch) && CpuAt(s, c)
    requires ProcAt(s, x) && PcAt(s, x) && ParentAt(s, x) && OrphanAt(s, p, x) && PcAt(s, p)
    ensures var s' := Change(s, p, pc, st, ch); ProcAt(s', x) && PcAt(s', x) && ParentAt(s', x)
  {
  }

  lemma ChangeExit(s: St, p: nat, pc: Pc, st: PState, ch: Chan, x: nat)
    requires Shape(s) && p < |s.st| && Changes(s, p, pc, st, ch) && ExitAt(s, x)
    ensures ExitAt(Change(s, p, pc, st, ch), x)
  {
  }

  lemma ChangeSleep(s: St, c: nat, p: nat, pc: Pc, st: PState, ch: Chan, x: nat, k: nat)
    requires Shape(s) && c < |s.cpu| && s.cpu[c] == Run(p) && p < |s.st| && Changes(s, p, pc, st, ch) && CpuAt(s, c)
    requires SleepAt(s, x, k) && (BeingWoken(s, K(k), SleepLock(k), x) ==> CpuAt(s, s.lock[K(k)]))
    ensures SleepAt(Change(s, p, pc, st, ch), x, k)
  {
  }

  lemma ChangePair(s: St, c: nat, p: nat, pc: Pc, st: PState, ch: Chan, q: nat, z: nat)
    requires Shape(s) && c < |s.cpu| && s.cpu[c] == Run(p) && p < |s.st| && Changes(s, p, pc, st, ch) && CpuAt(s, c)
             && ExitAt(s, p) && ProcAt(s, p)
    requires WaitAt(s, q, z) && ScanAt(s, q, z) && OrphanAt(s, q, z) && ForkAt(s, q, z) && ForkAt(s, q, q)
    requires BeingWoken(s, W, WaitOf(q), q) ==> CpuAt(s, s.lock[W])
    requires s.pc[p].ExitSet? && q < |s.st| && q != p ==> !InFamily(s.pc[q])
    ensures var s' := Change(s, p, pc, st, ch); WaitAt(s', q, z) && ScanAt(s', q, z) && OrphanAt(s', q, z)
                                                && ForkAt(s', q, z)
  {
    hide ProcAt, CpuAt, ScanAt, WaitAt, OrphanAt, ForkAt, ExitAt, Changes;
    ChangeWait(s, c, p, pc, st, ch, q, z);
    ChangeScan(s, p, pc, st, ch, q, z);
    ChangeFork(s, c, p, pc, st, ch, q, z);
  }

  lemma ChangeWait(s: St, c: nat, p: nat, pc: Pc, st: PState, ch: Chan, q: nat, z: nat)
    requires Shape(s) && c < |s.cpu| && s.cpu[c] == Run(p) && p < |s.st| && Changes(s, p, pc, st, ch) && ExitAt(s, p)
             && WaitAt(s, q, z)
    requires CpuAt(s, c) && (BeingWoken(s, W, WaitOf(q), q) ==> CpuAt(s, s.lock[W]))
    ensures WaitAt(Change(s, p, pc, st, ch), q, z)
  {
  }

  lemma ChangeScan(s: St, p: nat, pc: Pc, st: PState, ch: Chan, q: nat, z: nat)
    requires Shape(s) && p < |s.st| && Changes(s, p, pc, st, ch) && ScanAt(s, q, z)
    requires s.pc[p].ExitSet? && q < |s.st| && q != p ==> !InFamily(s.pc[q])
    ensures ScanAt(Change(s, p, pc, st, ch), q, z)
  {
  }

  lemma ChangeFork(s: St, c: nat, p: nat, pc: Pc, st: PState, ch: Chan, q: nat, z: nat)
    requires Shape(s) && c < |s.cpu| && s.cpu[c] == Run(p) && p < |s.st| && Changes(s, p, pc, st, ch) && CpuAt(s, c)
             && ProcAt(s, p)
    requires OrphanAt(s, q, z) && ForkAt(s, q, z)
    ensures var s' := Change(s, p, pc, st, ch); OrphanAt(s', q, z) && ForkAt(s', q, z)
  {
  }

  /** sched(): the thread switches to the scheduler of its CPU. */
  function SwitchOut(s: St, c: nat, p: nat, next: Pc): St
    requires p < |s.pc| && p < |s.on| && c < |s.cpu|
  {
    At(s, p, next).(cpu := s.cpu[c := Back(p)], on := s.on[p := None])
  }

  lemma SwitchOutInv(s: St, c: nat, p: nat, next: Pc)
    requires Inv(s) && c < |s.cpu| && s.cpu[c] == Run(p) && p < |s.st| && s.pc[p] == Sched(next)
    ensures Inv(SwitchOut(s, c, p, next))
  {
    hide LockAt, LockRange, CpuAt, ProcAt, PcAt, SleepAt, WaitAt, ScanAt, ExitAt, OrphanAt, ParentAt, ForkAt, SwitchOut;
    var s' := SwitchOut(s, c, p, next);
    assert CpuAt(s, c) && ProcAt(s, p) && PcAt(s, p);
    OutPc(s, p, next);
    assert Shape(s') by { OutShape(s, c, p, next); }
    forall c': nat, l
      ensures LockAt(s', c', l)
    {
      assert LockAt(s, c', l) && LockRange(s, l) && CpuAt(s, c');
      OutCpu(s, c, p, next, c', l);
    }
    forall l ensures LockRange(s', l) { assert LockAt(s, c, l) && LockRange(s, l); OutCpu(s, c, p, next, c, l); }
    forall c': nat
      ensures CpuAt(s', c')
    {
      assert LockAt(s, c', W) && LockRange(s, W) && CpuAt(s, c');
      OutCpu(s, c, p, next, c', W);
    }
    forall x: nat ensures ProcAt(s', x) && PcAt(s', x) && ParentAt(s', x) && ExitAt(s', x) {
      assert ProcAt(s, x) && PcAt(s, x) && ParentAt(s, x) && ExitAt(s, x);
      OutProc(s, c, p, next, x);
    }
    forall x: nat, k: nat
      ensures SleepAt(s', x, k)
    {
      assert SleepAt(s, x, k);
      WokenCpu(s, K(k), SleepLock(k), x);
      OutWoken(s, c, p, next, K(k), SleepLock(k), x);
      OutSleep(s, c, p, next, x, k);
    }
    forall q: nat, z: nat ensures WaitAt(s', q, z) && ScanAt(s', q, z) && OrphanAt(s', q, z) && ForkAt(s', q, z) {
      assert WaitAt(s, q, z) && ScanAt(s, q, z) && OrphanAt(s, q, z) && ForkAt(s, q, z);
      WokenCpu(s, W, WaitOf(q), q);
      OutWoken(s, c, p, next, W, WaitOf(q), q);
      OutPair(s, c, p, next, q, z);
    }
  }

  lemma OutShape(s: St, c: nat, p: nat, next: Pc)
    requires Shape(s) && c < |s.cpu| && p < |s.st|
    ensures Shape(SwitchOut(s, c, p, next))
  {
  }

  /** Where threads resume. */
  lemma OutPc(s: St, p: nat, next: Pc)
    requires Shape(s) && p < |s.st| && s.pc[p] == Sched(next) && PcAt(s, p)
    ensures next.YieldR? || next.Sleep4? || next.Dead?
  {
  }

  lemma OutCpu(s: St, c: nat, p: nat, next: Pc, c': nat, l: Lock)
    requires Shape(s) && c < |s.cpu| && s.cpu[c] == Run(p) && p < |s.st| && s.pc[p] == Sched(next) && CpuAt(s, c)
             && ProcAt(s, p)
    requires LockAt(s, c', l) && LockRange(s, l) && CpuAt(s, c')
    ensures var s' := SwitchOut(s, c, p, next); LockAt(s', c', l) && LockRange(s', l) && CpuAt(s', c')
  {
  }

  lemma OutProc(s: St, c: nat, p: nat, next: Pc, x: nat)
    requires Shape(s) && c < |s.cpu| && s.cpu[c] == Run(p) && p < |s.st| && s.pc[p] == Sched(next) && CpuAt(s, c)
             && PcAt(s, p)
    requires ProcAt(s, x) && PcAt(s, x) && ParentAt(s, x) && ExitAt(s, x)
    ensures var s' := SwitchOut(s, c, p, next); ProcAt(s', x) && PcAt(s', x) && ParentAt(s', x) && ExitAt(s', x)
  {
  }

  lemma OutWoken(s: St, c: nat, p: nat, next: Pc, l: Lock, ch: Chan, q: nat)
    requires Shape(s) && c < |s.cpu| && s.cpu[c] == Run(p) && p < |s.st| && s.pc[p] == Sched(next) && CpuAt(s, c)
    requires BeingWoken(s, l, ch, q) ==> CpuAt(s, s.lock[l])
    ensures BeingWoken(s, l, ch, q) ==> BeingWoken(SwitchOut(s, c, p, next), l, ch, q)
  {
  }

  lemma OutSleep(s: St, c: nat, p: nat, next: Pc, x: nat, k: nat)
    requires Shape(s) && c < |s.cpu| && p < |s.st| && s.pc[p] == Sched(next) && SleepAt(s, x, k) && !next.Sleep3?
    requires BeingWoken(s, K(k), SleepLock(k), x) ==> BeingWoken(SwitchOut(s, c, p, next), K(k), SleepLock(k), x)
    ensures SleepAt(SwitchOut(s, c, p, next), x, k)
  {
    hide BeingWoken;
  }

  lemma OutPair(s: St, c: nat, p: nat, next: Pc, q: nat, z: nat)
    requires Shape(s) && c < |s.cpu| && p < |s.st| && s.pc[p] == Sched(next)
             && (next.YieldR? || next.Sleep4? || next.Dead?)
    requires WaitAt(s, q, z) && ScanAt(s, q, z) && OrphanAt(s, q, z) && ForkAt(s, q, z)
    requires BeingWoken(s, W, WaitOf(q), q) ==> BeingWoken(SwitchOut(s, c, p, next), W, WaitOf(q), q)
    ensures var s' := SwitchOut(s, c, p, next); WaitAt(s', q, z) && ScanAt(s', q, z) && OrphanAt(s', q, z)
                                                && ForkAt(s', q, z)
  {
    hide BeingWoken;
  }

  // ----- the scheduler -----

  /** The scheduler of CPU c moves on, and may take or release p->lock. */
  function CpuMove(s: St, c: nat, to: CpuPc, op: LockOp): St
    requires c < |s.cpu| && c < |s.cproc|
  {
    var m := s.(cpu := s.cpu[c := to], cproc := s.cproc[c := None]);
    match op
    case Keep => m
    case Take(l) => Acq(m, c, l)
    case Drop(l) => Rel(m, l)
  }

  predicate CpuMoves(s: St, c: nat, to: CpuPc, op: LockOp) {
    && c < |s.cpu|
    && match s.cpu[c]
       case Scan(i) => (to.Scan? && op == Keep) || (to == Test(i) && i < |s.st| && op == Take(P(i)) && P(i) !in s.lock)
       case Test(i) => to.Scan? && op == Drop(P(i))
       case Back(i) => to.Scan? && op == Drop(P(i))
       case _ => false
  }

  lemma CpuMoveInv(s: St, c: nat, to: CpuPc, op: LockOp)
    requires Inv(s) && c < |s.cpu| && CpuMoves(s, c, to, op)
    ensures Inv(CpuMove(s, c, to, op))
  {
    hide LockAt, LockRange, CpuAt, ProcAt, PcAt, SleepAt, WaitAt, ScanAt, ExitAt, OrphanAt, ParentAt, ForkAt, CpuMoves,
         CpuMove;
    var s' := CpuMove(s, c, to, op);
    CpuMoveSame(s, c, to, op);
    assert CpuAt(s, c);
    assert op.Drop? ==> LockAt(s, c, op.l);
    forall c': nat, l ensures LockAt(s', c', l) {
      assert LockAt(s, c', l) && LockAt(s, c, l) && LockRange(s, l) && CpuAt(s, c');
      CpuMoveCpu(s, c, to, op, c', l);
    }
    forall l ensures LockRange(s', l) { assert LockAt(s, c, l) && LockRange(s, l); CpuMoveCpu(s, c, to, op, c, l); }
    forall c': nat
      ensures CpuAt(s', c')
    {
      assert LockAt(s, c', W) && LockAt(s, c, W) && LockRange(s, W) && CpuAt(s, c');
      CpuMoveCpu(s, c, to, op, c', W);
    }
    forall x: nat ensures ProcAt(s', x) && PcAt(s', x) && ParentAt(s', x) && ExitAt(s', x) {
      assert ProcAt(s, x) && PcAt(s, x) && ParentAt(s, x) && ExitAt(s, x);
      CpuMoveProc(s, c, to, op, x);
      CpuMoveExit(s, s', x);
    }
    forall x: nat, k: nat ensures SleepAt(s', x, k) {
      assert SleepAt(s, x, k) && LockAt(s, c, K(k));
      CpuMoveWoken(s, c, to, op, K(k), SleepLock(k), x);
      CpuMoveSleep(s, s', x, k);
    }
    forall q: nat, z: nat ensures WaitAt(s', q, z) && ScanAt(s', q, z) && OrphanAt(s', q, z) && ForkAt(s', q, z) {
      assert WaitAt(s, q, z) && ScanAt(s, q, z) && OrphanAt(s, q, z) && ForkAt(s, q, z) && LockAt(s, c, W);
      CpuMoveWoken(s, c, to, op, W, WaitOf(q), q);
      CpuMovePair(s, s', q, z);
    }
  }

  /** Two states in which processes are the same. */
  predicate SameProcs(s: St, s': St) {
    s'.st == s.st && s'.chan == s.chan && s'.parent == s.parent && s'.pc == s.pc && s'.locked == s.locked
  }

  lemma CpuMoveSame(s: St, c: nat, to: CpuPc, op: LockOp)
    requires Shape(s) && c < |s.cpu|
    ensures var s' := CpuMove(s, c, to, op); Shape(s') && SameProcs(s, s') && s'.on == s.on
  {
  }

  lemma CpuMoveCpu(s: St, c: nat, to: CpuPc, op: LockOp, c': nat, l: Lock)
    requires Shape(s) && CpuMoves(s, c, to, op) && CpuAt(s, c) && LockAt(s, c, l) && (op.Drop? ==> LockAt(s, c, op.l))
    requires LockAt(s, c', l) && LockRange(s, l) && CpuAt(s, c')
    ensures var s' := CpuMove(s, c, to, op); LockAt(s', c', l) && LockRange(s', l) && CpuAt(s', c')
  {
    hide Held;
  }

  lemma CpuMoveProc(s: St, c: nat, to: CpuPc, op: LockOp, x: nat)
    requires Shape(s) && CpuMoves(s, c, to, op) && (op.Drop? ==> LockAt(s, c, op.l)) && ProcAt(s, x) && PcAt(s, x)
             && ParentAt(s, x)
    ensures var s' := CpuMove(s, c, to, op); ProcAt(s', x) && PcAt(s', x) && ParentAt(s', x)
  {
    hide Held;
  }

  lemma CpuMoveExit(s: St, s': St, x: nat)
    requires Shape(s) && Shape(s') && SameProcs(s, s') && ExitAt(s, x)
    ensures ExitAt(s', x)
  {
  }

  lemma CpuMoveWoken(s: St, c: nat, to: CpuPc, op: LockOp, l: Lock, ch: Chan, q: nat)
    requires Shape(s) && CpuMoves(s, c, to, op) && !l.P?
    ensures BeingWoken(s, l, ch, q) ==> BeingWoken(CpuMove(s, c, to, op), l, ch, q)
  {
  }

  lemma CpuMoveSleep(s: St, s': St, x: nat, k: nat)
    requires Shape(s) && Shape(s') && SameProcs(s, s') && SleepAt(s, x, k)
    requires BeingWoken(s, K(k), SleepLock(k), x) ==> BeingWoken(s', K(k), SleepLock(k), x)
    ensures SleepAt(s', x, k)
  {
    hide BeingWoken;
  }

  lemma CpuMovePair(s: St, s': St, q: nat, z: nat)
    requires Shape(s) && Shape(s') && SameProcs(s, s') && WaitAt(s, q, z) && ScanAt(s, q, z) && OrphanAt(s, q, z)
             && ForkAt(s, q, z)
    requires BeingWoken(s, W, WaitOf(q), q) ==> BeingWoken(s', W, WaitOf(q), q)
    ensures WaitAt(s', q, z) && ScanAt(s', q, z) && OrphanAt(s', q, z) && ForkAt(s', q, z)
  {
    hide BeingWoken;
  }

  /** The scheduler chooses a process. */
  function Dispatch(s: St, c: nat, i: nat): St
    requires c < |s.cpu| && c < |s.cproc|
  {
    SetSt(s, i, Running).(cpu := s.cpu[c := Go(i)], cproc := s.cproc[c := Some(i)])
  }

  lemma DispatchInv(s: St, c: nat, i: nat)
    requires Inv(s) && c < |s.cpu| && s.cpu[c] == Test(i) && i < |s.st| && s.st[i] == Runnable
    ensures Inv(Dispatch(s, c, i))
  {
    hide LockAt, LockRange, CpuAt, ProcAt, PcAt, SleepAt, WaitAt, ScanAt, ExitAt, OrphanAt, ParentAt, ForkAt, Dispatch,
         BeingWoken;
    var s' := Dispatch(s, c, i);
    DispatchFacts(s, c, i);
    assert CpuAt(s, c) && ProcAt(s, i) && LockAt(s, c, P(i));
    OffCpu(s, c, i);
    forall c': nat, l
      ensures LockAt(s', c', l)
    {
      assert LockAt(s, c', l) && LockRange(s, l) && CpuAt(s, c');
      OtherBack(s, c, i, c');
      DispatchCpu(s, c, i, c', l);
    }
    forall l
      ensures LockRange(s', l)
    {
      assert LockAt(s, c, l) && LockRange(s, l);
      OtherBack(s, c, i, c);
      DispatchCpu(s, c, i, c, l);
    }
    forall c': nat
      ensures CpuAt(s', c')
    {
      assert LockAt(s, c', W) && LockRange(s, W) && CpuAt(s, c');
      OtherBack(s, c, i, c');
      DispatchCpu(s, c, i, c', W);
    }
    forall x: nat ensures ProcAt(s', x) && PcAt(s', x) && ParentAt(s', x) && ExitAt(s', x) {
      assert ProcAt(s, x) && PcAt(s, x) && ParentAt(s, x) && ExitAt(s, x) && LockRange(s, P(i));
      DispatchProc(s, c, i, x);
    }
    forall x: nat, k: nat
      ensures SleepAt(s', x, k)
    {
      assert SleepAt(s, x, k);
      DispatchWoken(s, c, i, K(k), SleepLock(k), x);
      DispatchSleep(s, c, i, x, k);
    }
    forall q: nat, z: nat ensures WaitAt(s', q, z) && ScanAt(s', q, z) && OrphanAt(s', q, z) && ForkAt(s', q, z) {
      assert WaitAt(s, q, z) && ScanAt(s, q, z) && OrphanAt(s, q, z) && ForkAt(s, q, z);
      DispatchWoken(s, c, i, W, WaitOf(q), q);
      DispatchPair(s, c, i, q, z);
    }
  }

  lemma DispatchFacts(s: St, c: nat, i: nat)
    requires Shape(s) && c < |s.cpu|
    ensures Shape(Dispatch(s, c, i))
  {
  }

  /** The process whose lock the scheduler holds is on no CPU, if it is runnable. */
  lemma OffCpu(s: St, c: nat, i: nat)
    requires Inv(s) && c < |s.cpu| && s.cpu[c] == Test(i) && i < |s.st| && s.st[i] == Runnable
    ensures s.on[i] == None && P(i) in s.lock && s.lock[P(i)] == c
  {
    var d := if s.on[i].Some? then s.on[i].value else c;
    assert ProcAt(s, i) && LockAt(s, c, P(i)) && LockAt(s, d, P(i));
  }

  lemma OtherBack(s: St, c: nat, i: nat, c': nat)
    requires Inv(s) && c < |s.cpu| && s.cpu[c] == Test(i)
    ensures c' < |s.cpu| ==> s.cpu[c'] != Back(i) && s.cpu[c'] != Go(i)
  {
    if c' < |s.cpu| { assert LockAt(s, c, P(i)) && LockAt(s, c', P(i)); }
  }

  lemma DispatchCpu(s: St, c: nat, i: nat, c': nat, l: Lock)
    requires Shape(s) && c < |s.cpu| && s.cpu[c] == Test(i) && i < |s.st| && s.on[i] == None
             && (c' < |s.cpu| ==> s.cpu[c'] != Back(i) && s.cpu[c'] != Go(i))
    requires LockAt(s, c', l) && LockRange(s, l) && CpuAt(s, c')
    ensures var s' := Dispatch(s, c, i); LockAt(s', c', l) && LockRange(s', l) && CpuAt(s', c')
  {
    hide Held;
  }

  lemma DispatchProc(s: St, c: nat, i: nat, x: nat)
    requires Shape(s) && c < |s.cpu| && s.cpu[c] == Test(i) && i < |s.st| && s.st[i] == Runnable && s.on[i] == None
             && P(i) in s.lock && s.lock[P(i)] == c
    requires ProcAt(s, x) && PcAt(s, x) && ParentAt(s, x) && ExitAt(s, x)
    ensures var s' := Dispatch(s, c, i); ProcAt(s', x) && PcAt(s', x) && ParentAt(s', x) && ExitAt(s', x)
  {
  }

  lemma DispatchWoken(s: St, c: nat, i: nat, l: Lock, ch: Chan, q: nat)
    requires Shape(s) && c < |s.cpu| && s.cpu[c] == Test(i)
    ensures BeingWoken(s, l, ch, q) ==> BeingWoken(Dispatch(s, c, i), l, ch, q)
  {
  }

  lemma DispatchSleep(s: St, c: nat, i: nat, x: nat, k: nat)
    requires Shape(s) && c < |s.cpu| && i < |s.st| && s.st[i] == Runnable && SleepAt(s, x, k)
    requires BeingWoken(s, K(k), SleepLock(k), x) ==> BeingWoken(Dispatch(s, c, i), K(k), SleepLock(k), x)
    ensures SleepAt(Dispatch(s, c, i), x, k)
  {
    hide BeingWoken;
  }

  lemma DispatchPair(s: St, c: nat, i: nat, q: nat, z: nat)
    requires Shape(s) && c < |s.cpu| && i < |s.st| && s.st[i] == Runnable && WaitAt(s, q, z) && ScanAt(s, q, z)
             && OrphanAt(s, q, z) && ForkAt(s, q, z)
    requires BeingWoken(s, W, WaitOf(q), q) ==> BeingWoken(Dispatch(s, c, i), W, WaitOf(q), q)
    ensures var s' := Dispatch(s, c, i); WaitAt(s', q, z) && ScanAt(s', q, z) && OrphanAt(s', q, z) && ForkAt(s', q, z)
  {
    hide BeingWoken;
  }

  /** swtch() to the chosen process. */
  function Resume(s: St, c: nat, i: nat): St
    requires c < |s.cpu| && i < |s.on|
  {
    s.(cpu := s.cpu[c := Run(i)], on := s.on[i := Some(c)])
  }

  lemma ResumeInv(s: St, c: nat, i: nat)
    requires Inv(s) && c < |s.cpu| && s.cpu[c] == Go(i) && i < |s.st|
    ensures Inv(Resume(s, c, i))
  {
    hide LockAt, LockRange, CpuAt, ProcAt, PcAt, SleepAt, WaitAt, ScanAt, ExitAt, OrphanAt, ParentAt, ForkAt, Resume,
         BeingWoken;
    var s' := Resume(s, c, i);
    assert Shape(s') && SameProcs(s, s') by { ResumeFacts(s, c, i); }
    assert CpuAt(s, c) && ProcAt(s, i) && LockAt(s, c, P(i));
    forall c': nat, l
      ensures LockAt(s', c', l)
    {
      assert LockAt(s, c', l) && LockRange(s, l) && CpuAt(s, c') && LockAt(s, c', P(i));
      ResumeCpu(s, c, i, c', l);
    }
    forall l ensures LockRange(s', l) { assert LockAt(s, c, l) && LockRange(s, l); ResumeCpu(s, c, i, c, l); }
    forall c': nat
      ensures CpuAt(s', c')
    {
      assert LockAt(s, c', W) && LockRange(s, W) && CpuAt(s, c') && LockAt(s, c', P(i));
      ResumeCpu(s, c, i, c', W);
    }
    forall x: nat ensures ProcAt(s', x) && PcAt(s', x) && ParentAt(s', x) && ExitAt(s', x) {
      assert ProcAt(s, x) && PcAt(s, x) && ParentAt(s, x) && ExitAt(s, x);
      ResumeProc(s, c, i, x);
      CpuMoveExit(s, s', x);
    }
    forall x: nat, k: nat
      ensures SleepAt(s', x, k)
    {
      assert SleepAt(s, x, k);
      ResumeWoken(s, c, i, K(k), SleepLock(k), x);
      CpuMoveSleep(s, s', x, k);
    }
    forall q: nat, z: nat ensures WaitAt(s', q, z) && ScanAt(s', q, z) && OrphanAt(s', q, z) && ForkAt(s', q, z) {
      assert WaitAt(s, q, z) && ScanAt(s, q, z) && OrphanAt(s, q, z) && ForkAt(s, q, z);
      ResumeWoken(s, c, i, W, WaitOf(q), q);
      CpuMovePair(s, s', q, z);
    }
  }

  lemma ResumeFacts(s: St, c: nat, i: nat)
    requires Shape(s) && c < |s.cpu| && i < |s.st|
    ensures Shape(Resume(s, c, i)) && SameProcs(s, Resume(s, c, i))
  {
  }

  lemma ResumeCpu(s: St, c: nat, i: nat, c': nat, l: Lock)
    requires Shape(s) && c < |s.cpu| && s.cpu[c] == Go(i) && i < |s.st| && CpuAt(s, c) && ProcAt(s, i)
             && LockAt(s, c, P(i))
    requires LockAt(s, c', l) && LockRange(s, l) && CpuAt(s, c') && LockAt(s, c', P(i))
    ensures var s' := Resume(s, c, i); LockAt(s', c', l) && LockRange(s', l) && CpuAt(s', c')
  {
  }

  lemma ResumeProc(s: St, c: nat, i: nat, x: nat)
    requires Shape(s) && c < |s.cpu| && s.cpu[c] == Go(i) && i < |s.st| && CpuAt(s, c) && ProcAt(s, x) && PcAt(s, x)
             && ParentAt(s, x)
    ensures var s' := Resume(s, c, i); ProcAt(s', x) && PcAt(s', x) && ParentAt(s', x)
  {
  }

  lemma ResumeWoken(s: St, c: nat, i: nat, l: Lock, ch: Chan, q: nat)
    requires Shape(s) && c < |s.cpu| && s.cpu[c] == Go(i) && i < |s.st|
    ensures BeingWoken(s, l, ch, q) ==> BeingWoken(Resume(s, c, i), l, ch, q)
  {
  }
}
