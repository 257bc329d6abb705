/**
 The logging system as a whole: any number of processes inside begin_op and
 end_op, one block write of a commit or a recovery at a time, and power failure
 at any moment. Each step is one lock-protected section or one block write.
 */
module LogSystem {
  import opened Disk
  import opened LogSpec

  type Pid = nat

  /** A batch of block writes under way: `done` of them have reached the disk `before`. */
  datatype Job = Job(before: Image, writes: seq<Write>, done: nat)

  datatype Phase = Down | Booting(job: Job) | Serving | Committing(job: Job)

  datatype State = State(
    disk: Image,
    phase: Phase,
    lh: seq<int>,                // blocks logged by the current transaction
    cache: map<int, Block>,      // their contents in the buffer cache
    ops: map<Pid, set<int>>,     // operations between begin_op and end_op, with the blocks each has logged
    sleepers: set<Pid>,          // processes asleep in begin_op
    groups: seq<Group>,          // history: transactions whose header write has reached the disk
    returned: nat)               // history: how many of them commit has returned from (or recovery followed)

  datatype Step =
    | Begin(p: Pid)
    | LogWrite(p: Pid, b: int, data: Block)
    | End(p: Pid)
    | DiskWrite
    | Return
    | Boot
    | BootDone
    | Crash(torn: bool, junk: Block)

  /** The two panics of log_write that depend on the log's fill level. */
  predicate Overflows(g: Geometry, s: State) {
    |s.lh| >= LOGSIZE || |s.lh| >= g.size - 1
  }

  /** begin_op's reasons to sleep. */
  predicate Blocked(s: State) {
    s.phase.Committing? || |s.lh| + (|s.ops| + 1) * MAXOPBLOCKS > LOGSIZE
  }

  /** The contents of the logged blocks, in the order of the header. */
  function DataOf(lh: seq<int>, cache: map<int, Block>): (data: seq<Block>)
    requires forall i :: 0 <= i < |lh| ==> lh[i] in cache
    ensures |data| == |lh|
  {
    seq(|lh|, i requires 0 <= i < |lh| => cache[lh[i]])
  }

  function CacheData(s: State): (data: seq<Block>)
    requires forall i :: 0 <= i < |s.lh| ==> s.lh[i] in s.cache
    ensures |data| == |s.lh|
  {
    DataOf(s.lh, s.cache)
  }

  predicate Busy(s: State) {
    s.phase.Booting? || s.phase.Committing?
  }

  ghost predicate Enabled(g: Geometry, s: State, step: Step) {
    match step
    case Begin(p) => (s.phase.Serving? || s.phase.Committing?) && p !in s.ops && p !in s.sleepers
    case LogWrite(p, b, _) =>
      && p in s.ops && Home(g, s.disk, b) && !Overflows(g, s)
      // the file system's promise: no operation logs more than MAXOPBLOCKS distinct blocks
      && (b in s.ops[p] || |s.ops[p]| < MAXOPBLOCKS)
    case End(p) =>
      && p in s.ops && !s.phase.Committing?
      && Placed(g, s.disk) && GoodHead(g, s.disk, s.lh) && forall i :: 0 <= i < |s.lh| ==> s.lh[i] in s.cache
    case DiskWrite => Busy(s) && s.phase.job.done < |s.phase.job.writes|
      && s.phase.job.writes[s.phase.job.done].bno < |s.disk|
    case Return => s.phase.Committing? && s.phase.job.done == |s.phase.job.writes|
    case Boot => s.phase.Down? && Ready(g, s.disk)
    case BootDone => s.phase.Booting? && s.phase.job.done == |s.phase.job.writes|
    case Crash(torn, _) =>
      && !s.phase.Down?
      && (torn ==> Busy(s) && s.phase.job.done < |s.phase.job.writes|
                   && s.phase.job.writes[s.phase.job.done].bno != g.start
                      && s.phase.job.writes[s.phase.job.done].bno < |s.disk|)
  }

  /** The next block write of a commit is its header write. */
  predicate AtHeader(s: State) {
    s.phase.Committing? && s.lh != [] && s.phase.job.done == |s.lh|
  }

  ghost function Do(g: Geometry, s: State, step: Step): State
    requires Enabled(g, s, step)
  {
    match step
    case Begin(p) =>
      if Blocked(s) then s.(sleepers := s.sleepers + {p}) else s.(ops := s.ops[p := {}])
    case LogWrite(p, b, data) =>
      s.(lh := if b in s.lh then s.lh else s.lh + [b],
         cache := s.cache[b := data],
         ops := s.ops[p := s.ops[p] + {b}])
    case End(p) =>
      var rest := s.ops - {p};
      if rest == map[] then
        s.(ops := rest, phase := Committing(Job(s.disk, CommitWrites(g, s.disk[g.start], s.lh, CacheData(s)), 0)))
      else
        s.(ops := rest, sleepers := {})                 // wakeup
    case DiskWrite =>
      var w := s.phase.job.writes[s.phase.job.done];
      var job' := s.phase.job.(done := s.phase.job.done + 1);
      s.(disk := s.disk[w.bno := w.data],
         phase := if s.phase.Booting? then Booting(job') else Committing(job'),
         groups := if AtHeader(s) && (forall i :: 0 <= i < |s.lh| ==> s.lh[i] in s.cache)
                   then s.groups + [GroupOf(s.lh, CacheData(s))] else s.groups)
    case Return =>
      s.(phase := Serving, lh := [], cache := map[], sleepers := {}, returned := |s.groups|)   // wakeup
    case Boot =>
      s.(phase := Booting(Job(s.disk, RecoverWrites(g, s.disk), 0)))
    case BootDone =>
      s.(phase := Serving, returned := |s.groups|)
    case Crash(torn, junk) =>
      State(if torn then s.disk[s.phase.job.writes[s.phase.job.done].bno := junk] else s.disk,
            Down, [], map[], map[], {}, s.groups, s.returned)
  }

  ghost predicate Legal(g: Geometry, s: State, steps: seq<Step>)
    decreases |steps|
  {
    steps == [] || (Enabled(g, s, steps[0]) && Legal(g, Do(g, s, steps[0]), steps[1..]))
  }

  ghost function Exec(g: Geometry, s: State, steps: seq<Step>): State
    requires Legal(g, s, steps)
    decreases |steps|
  {
    if steps == [] then s else Exec(g, Do(g, s, steps[0]), steps[1..])
  }

  /** Power is off, and the disk holds fs with nothing to recover, as mkfs leaves it. */
  ghost predicate Init(g: Geometry, s: State, fs: Image) {
    Settled(g, s.disk, fs) && s == State(s.disk, Down, [], map[], map[], {}, [], 0)
  }

  // ----- reservations -----

  /** Blocks the operations under way may still log. */
  ghost function Unused(ops: map<Pid, set<int>>): int
    decreases |ops|
  {
    if ops == map[] then 0 else
      var p :| p in ops;
      assert |(ops - {p}).Keys| < |ops.Keys| by { KeysWithout(ops, p); }
      MAXOPBLOCKS - |ops[p]| + Unused(ops - {p})
  }

  lemma KeysWithout(ops: map<Pid, set<int>>, p: Pid)
    requires p in ops
    ensures (ops - {p}).Keys == ops.Keys - {p} && |ops - {p}| == |ops| - 1
  {
    assert (ops - {p}).Keys == ops.Keys - {p};
    assert |(ops - {p}).Keys| == |ops - {p}| && |ops.Keys| == |ops|;
  }

  lemma {:induction false} UnusedAny(ops: map<Pid, set<int>>, p: Pid)
    requires p in ops
    ensures Unused(ops) == MAXOPBLOCKS - |ops[p]| + Unused(ops - {p})
    decreases |ops|
  {
    var q :| q in ops && Unused(ops) == MAXOPBLOCKS - |ops[q]| + Unused(ops - {q});
    if q != p {
      KeysWithout(ops, q);
      KeysWithout(ops, p);
      UnusedAny(ops - {q}, p);
      UnusedAny(ops - {p}, q);
      assert ops - {q} - {p} == ops - {p} - {q};
    }
  }

  lemma {:induction false} UnusedAtMost(ops: map<Pid, set<int>>)
    ensures Unused(ops) <= MAXOPBLOCKS * |ops|
    decreases |ops|
  {
    if ops != map[] {
      var p :| p in ops;
      UnusedAny(ops, p);
      KeysWithout(ops, p);
      UnusedAtMost(ops - {p});
    }
  }

  lemma {:induction false} UnusedAtLeast(ops: map<Pid, set<int>>)
    requires forall p :: p in ops ==> |ops[p]| <= MAXOPBLOCKS
    ensures Unused(ops) >= 0
    decreases |ops|
  {
    if ops != map[] {
      var p :| p in ops;
      UnusedAny(ops, p);
      KeysWithout(ops, p);
      UnusedAtLeast(ops - {p});
    }
  }

  lemma UnusedSet(ops: map<Pid, set<int>>, p: Pid, u: set<int>)
    ensures Unused(ops[p := u]) == MAXOPBLOCKS - |u| + Unused(ops - {p})
  {
    UnusedAny(ops[p := u], p);
    assert ops[p := u] - {p} == ops - {p};
  }

  // ----- what every step keeps -----

  ghost predicate Progress(disk: Image, job: Job) {
    && job.done <= |job.writes| && InRange(job.before, job.writes)
    && disk == ApplyAll(job.before, job.writes[..job.done])
  }

  ghost predicate HeadCached(lh: seq<int>, cache: map<int, Block>) {
    forall i :: 0 <= i < |lh| ==> lh[i] in cache
  }

  /** The job of a commit: before its header write the disk recovers to the
      contents without the transaction, afterwards to those with it. */
  ghost predicate CommitJob(g: Geometry, s: State, job: Job, base: Image) {
    && Placed(g, job.before) && GoodHead(g, job.before, s.lh) && HeadCached(s.lh, s.cache)
    && job.writes == CommitWrites(g, job.before[g.start], s.lh, CacheData(s))
    && Progress(s.disk, job)
    && if s.lh != [] && job.done > |s.lh| then
         && |s.groups| > 0 && s.groups[|s.groups| - 1] == GroupOf(s.lh, CacheData(s))
         && Settled(g, job.before, ApplyGroups(base, s.groups[..|s.groups| - 1]))
       else
         Settled(g, job.before, ApplyGroups(base, s.groups))
  }

  ghost predicate BootJob(g: Geometry, s: State, job: Job, base: Image) {
    && Recovers(g, job.before, ApplyGroups(base, s.groups))
    && job.writes == RecoverWrites(g, job.before)
    && Progress(s.disk, job)
  }

  ghost predicate DiskInv(g: Geometry, s: State, base: Image) {
    match s.phase
    case Down => Recovers(g, s.disk, ApplyGroups(base, s.groups))
    case Serving => Settled(g, s.disk, ApplyGroups(base, s.groups))
    case Booting(job) => BootJob(g, s, job, base)
    case Committing(job) => CommitJob(g, s, job, base)
  }

  ghost predicate OpsInv(s: State) {
    && (forall p :: p in s.ops ==> |s.ops[p]| <= MAXOPBLOCKS && forall b :: b in s.ops[p] ==> b in s.lh)
    && |s.lh| + Unused(s.ops) <= LOGSIZE
    && (s.ops == map[] && !s.phase.Committing? ==> s.lh == [])
    && (s.phase.Committing? || s.phase.Down? || s.phase.Booting? ==> s.ops == map[])
  }

  ghost predicate MemInv(g: Geometry, s: State) {
    && Placed(g, s.disk) && GoodHead(g, s.disk, s.lh) && HeadCached(s.lh, s.cache)
    && OpsInv(s)
    && (s.sleepers != {} ==> Blocked(s) && (s.phase.Serving? || s.phase.Committing?))
    && s.returned <= |s.groups|
  }

  ghost predicate Inv(g: Geometry, s: State, base: Image) {
    DiskInv(g, s, base) && MemInv(g, s)
  }

  lemma InitInv(g: Geometry, s: State, fs: Image)
    requires Init(g, s, fs)
    ensures Inv(g, s, fs)
  {
    SettledRecovers(g, s.disk, fs);
  }

  // Reservations, step by step.
  lemma BeginOps(s: State, p: Pid)
    requires OpsInv(s) && s.phase.Serving? && p !in s.ops && !Blocked(s)
    ensures OpsInv(s.(ops := s.ops[p := {}]))
  {
    hide Unused;
    UnusedSet(s.ops, p, {});
    UnusedAtMost(s.ops);
    assert s.ops - {p} == s.ops;
  }

  lemma EndOps(g: Geometry, s: State, p: Pid)
    requires OpsInv(s) && Enabled(g, s, End(p))
    ensures OpsInv(Do(g, s, End(p)))
  {
    UnusedAny(s.ops, p);
  }

  lemma LogWriteOps(g: Geometry, s: State, p: Pid, b: int, data: Block)
    requires OpsInv(s) && Enabled(g, s, LogWrite(p, b, data))
    ensures OpsInv(Do(g, s, LogWrite(p, b, data)))
  {
    UnusedSet(s.ops, p, s.ops[p] + {b});
    UnusedAny(s.ops, p);
    if b in s.ops[p] {
      assert s.ops[p] + {b} == s.ops[p];
    } else {
      assert |s.ops[p] + {b}| == |s.ops[p]| + 1;
    }
    var s' := Do(g, s, LogWrite(p, b, data));
    forall q, c | q in s'.ops && c in s'.ops[q] ensures c in s'.lh {
      if q in s.ops && c in s.ops[q] { assert c in s.lh; }
    }
  }

  lemma LogWriteHead(g: Geometry, s: State, p: Pid, b: int, data: Block)
    requires MemInv(g, s) && Enabled(g, s, LogWrite(p, b, data))
    ensures GoodHead(g, s.disk, Do(g, s, LogWrite(p, b, data)).lh)
    ensures HeadCached(Do(g, s, LogWrite(p, b, data)).lh, Do(g, s, LogWrite(p, b, data)).cache)
  {
  }

  lemma SleepersStep(g: Geometry, s: State, step: Step)
    requires MemInv(g, s) && Enabled(g, s, step)
    ensures var s' := Do(g, s, step); s'.sleepers != {} ==> Blocked(s') && (s'.phase.Serving? || s'.phase.Committing?)
  {
    hide GoodHead, HeadCached, Unused, CommitWrites, RecoverWrites, GroupOf, Settled, Recovers, Ready;
    match step
    case LogWrite(p, b, data) =>
      assert s.ops[p := s.ops[p] + {b}].Keys == s.ops.Keys;
    case Begin(p) =>
      if !Blocked(s) { assert s.sleepers == {}; }
    case _ =>
  }

  lemma MemStep(g: Geometry, s: State, step: Step)
    requires MemInv(g, s) && Enabled(g, s, step)
    ensures MemInv(g, Do(g, s, step))
  {
    hide GoodHead, HeadCached, Unused, CommitWrites, RecoverWrites, GroupOf, Settled, Recovers, Ready;
    SleepersStep(g, s, step);
    SizeKept(g, s, step);
    match step
    case Begin(p) => if !Blocked(s) { BeginOps(s, p); }
    case End(p) => EndOps(g, s, p);
    case LogWrite(p, b, data) => LogWriteOps(g, s, p, b, data); LogWriteHead(g, s, p, b, data);
    case DiskWrite =>
    case Return =>
    case Boot =>
    case BootDone =>
    case Crash(torn, junk) =>
  }

  lemma SizeKept(g: Geometry, s: State, step: Step)
    requires Enabled(g, s, step)
    ensures |Do(g, s, step).disk| == |s.disk|
    ensures GoodHead(g, s.disk, s.lh) ==> GoodHead(g, Do(g, s, step).disk, s.lh)
    ensures Placed(g, s.disk) ==> GoodHead(g, Do(g, s, step).disk, []) && HeadCached([], map[])
    ensures Unused(map[]) == 0
  {
    hide CommitWrites, RecoverWrites, GroupOf, Settled, Recovers, Ready;
  }

  lemma ProgressStep(disk: Image, job: Job)
    requires Progress(disk, job) && job.done < |job.writes|
    ensures job.writes[job.done].bno < |disk|
    ensures Progress(disk[job.writes[job.done].bno := job.writes[job.done].data], job.(done := job.done + 1))
  {
    ApplyAllStep(job.before, job.writes, job.done);
  }

  lemma ProgressCrash(g: Geometry, disk: Image, job: Job, c: Image)
    requires Progress(disk, job)
    requires c == disk || (job.done < |job.writes| && job.writes[job.done].bno != g.start
                           && exists junk: Block :: c == Torn(disk, job.writes[job.done].bno, junk))
    ensures CrashImage(g, job.before, job.writes, job.done, c)
  {
  }

  /** Wherever a commit stands, what a power failure leaves recovers to the committed transactions. */
  lemma CommitCrashes(g: Geometry, s: State, job: Job, base: Image, c: Image)
    requires CommitJob(g, s, job, base) && CrashImage(g, job.before, job.writes, job.done, c)
    ensures Recovers(g, c, ApplyGroups(base, s.groups))
    ensures job.done == |job.writes| ==> Settled(g, c, ApplyGroups(base, s.groups))
  {
    var data := CacheData(s);
    if s.lh == [] {
      SettledRecovers(g, c, ApplyGroups(base, s.groups));
    } else if job.done <= |s.lh| {
      CrashBeforeHeader(g, job.before, s.lh, data, job.done, c, ApplyGroups(base, s.groups));
      SettledRecovers(g, c, ApplyGroups(base, s.groups));
    } else {
      CrashAfterHeader(g, job.before, s.lh, data, job.done, c, ApplyGroups(base, s.groups[..|s.groups| - 1]));
    }
  }

  lemma CommitWriteStep(g: Geometry, s: State, base: Image)
    requires s.phase.Committing? && CommitJob(g, s, s.phase.job, base) && Enabled(g, s, DiskWrite)
    ensures DiskInv(g, Do(g, s, DiskWrite), base)
  {
    hide GoodHead, GroupOf, CommitWrites, Settled, Progress, ApplyGroups, Placed;
    ProgressStep(s.disk, s.phase.job);
    var s' := Do(g, s, DiskWrite);
    if AtHeader(s) {
      assert s'.groups[..|s'.groups| - 1] == s.groups;
    }
    assert CacheData(s') == CacheData(s);
  }

  lemma EndDisk(g: Geometry, s: State, p: Pid, base: Image)
    requires MemInv(g, s) && DiskInv(g, s, base) && Enabled(g, s, End(p))
    ensures DiskInv(g, Do(g, s, End(p)), base)
  {
    CommitWritesInRange(g, s.disk, s.lh, CacheData(s));
  }

  lemma CrashDisk(g: Geometry, s: State, torn: bool, junk: Block, base: Image)
    requires DiskInv(g, s, base) && Enabled(g, s, Crash(torn, junk))
    ensures DiskInv(g, Do(g, s, Crash(torn, junk)), base)
  {
    var s' := Do(g, s, Crash(torn, junk));
    match s.phase
    case Serving => SettledRecovers(g, s.disk, ApplyGroups(base, s.groups));
    case Booting(job) =>
      if torn { assert s'.disk == Torn(s.disk, job.writes[job.done].bno, junk); }
      ProgressCrash(g, s.disk, job, s'.disk);
      RecoverCrash(g, job.before, job.done, s'.disk, ApplyGroups(base, s.groups));
    case Committing(job) =>
      if torn { assert s'.disk == Torn(s.disk, job.writes[job.done].bno, junk); }
      ProgressCrash(g, s.disk, job, s'.disk);
      CommitCrashes(g, s, job, base, s'.disk);
  }

  lemma ReturnDisk(g: Geometry, s: State, base: Image)
    requires DiskInv(g, s, base) && Enabled(g, s, Return)
    ensures DiskInv(g, Do(g, s, Return), base)
  {
    ProgressCrash(g, s.disk, s.phase.job, s.disk);
    CommitCrashes(g, s, s.phase.job, base, s.disk);
  }

  lemma BeginDisk(g: Geometry, s: State, p: Pid, base: Image)
    requires Inv(g, s, base) && Enabled(g, s, Begin(p))
    ensures DiskInv(g, Do(g, s, Begin(p)), base)
  {
    assert s.phase.Committing? ==> CacheData(Do(g, s, Begin(p))) == CacheData(s);
  }

  lemma BootDisk(g: Geometry, s: State, base: Image)
    requires DiskInv(g, s, base) && Enabled(g, s, Boot)
    ensures DiskInv(g, Do(g, s, Boot), base)
  {
  }

  lemma BootDoneDisk(g: Geometry, s: State, base: Image)
    requires DiskInv(g, s, base) && Enabled(g, s, BootDone)
    ensures DiskInv(g, Do(g, s, BootDone), base)
  {
    ProgressCrash(g, s.disk, s.phase.job, s.disk);
    RecoverCrash(g, s.phase.job.before, s.phase.job.done, s.disk, ApplyGroups(base, s.groups));
  }

  lemma DiskStep(g: Geometry, s: State, step: Step, base: Image)
    requires Inv(g, s, base) && Enabled(g, s, step)
    ensures DiskInv(g, Do(g, s, step), base)
  {
    hide GoodHead, HeadCached, GroupOf, CommitWrites, RecoverWrites, Settled, Recovers, Progress, ApplyGroups, Placed,
         Ready, CommitJob;
    match step
    case Begin(p) => BeginDisk(g, s, p, base);
    case LogWrite(p, b, data) =>
    case End(p) => EndDisk(g, s, p, base);
    case DiskWrite =>
      if s.phase.Committing? { CommitWriteStep(g, s, base); } else { ProgressStep(s.disk, s.phase.job); }
    case Return => ReturnDisk(g, s, base);
    case Boot => BootDisk(g, s, base);
    case BootDone => BootDoneDisk(g, s, base);
    case Crash(torn, junk) => CrashDisk(g, s, torn, junk, base);
  }

  lemma InvStep(g: Geometry, s: State, step: Step, base: Image)
    requires Inv(g, s, base) && Enabled(g, s, step)
    ensures Inv(g, Do(g, s, step), base)
  {
    hide DiskInv, MemInv;
    MemStep(g, s, step);
    DiskStep(g, s, step, base);
  }

  lemma {:induction false} InvRun(g: Geometry, s: State, steps: seq<Step>, base: Image)
    requires Inv(g, s, base) && Legal(g, s, steps)
    ensures Inv(g, Exec(g, s, steps), base)
    decreases |steps|
  {
    hide Inv, Enabled, Do;
    if steps != [] {
      InvStep(g, s, steps[0], base);
      InvRun(g, Do(g, s, steps[0]), steps[1..], base);
    }
  }

  // ----- the results, over every run -----

  lemma GroupsKept(g: Geometry, s: State, base: Image)
    requires Inv(g, s, base)
    ensures s.returned <= |s.groups|
  {
  }

  lemma GroupsStep(g: Geometry, s: State, step: Step)
    requires Enabled(g, s, step) && s.returned <= |s.groups|
    ensures s.groups <= Do(g, s, step).groups && s.returned <= Do(g, s, step).returned
  {
  }

  /** Once a transaction's header is on disk no later step, crash included, takes it
      back, and the count of transactions known durable never goes down. */
  lemma {:induction false} GroupsGrow(g: Geometry, s: State, steps: seq<Step>, base: Image)
    requires Inv(g, s, base) && Legal(g, s, steps)
    ensures s.groups <= Exec(g, s, steps).groups
    ensures s.returned <= Exec(g, s, steps).returned <= |Exec(g, s, steps).groups|
    decreases |steps|
  {
    hide Inv, Enabled, Do;
    GroupsKept(g, s, base);
    if steps != [] {
      GroupsStep(g, s, steps[0]);
      InvStep(g, s, steps[0], base);
      GroupsGrow(g, Do(g, s, steps[0]), steps[1..], base);
    }
  }

  /** Crash atomicity. Stop any run anywhere, between two block writes or with a
      non-header block half written. The disk left behind recovers to the base
      image with exactly the transactions in `groups` applied, in order: all of
      those commit had returned from, and no part of any other. */
  lemma CrashAtomicity(g: Geometry, s0: State, steps: seq<Step>, base: Image, torn: bool, junk: Block)
    requires Init(g, s0, base) && Legal(g, s0, steps)
    requires Enabled(g, Exec(g, s0, steps), Crash(torn, junk))
    ensures var s := Exec(g, s0, steps);
            var left := Do(g, s, Crash(torn, junk)).disk;
            && Recovers(g, left, ApplyGroups(base, s.groups)) && s.returned <= |s.groups|
            && Settled(g, ApplyAll(left, RecoverWrites(g, left)), ApplyGroups(base, s.groups))
  {
    hide Inv, MemInv, Init, Enabled, Do, Recovers, Settled, RecoverWrites, ApplyGroups;
    InitInv(g, s0, base);
    InvRun(g, s0, steps, base);
    var s := Exec(g, s0, steps);
    CrashRecovers(g, s, base, torn, junk);
  }

  lemma CrashRecovers(g: Geometry, s: State, base: Image, torn: bool, junk: Block)
    requires Inv(g, s, base) && Enabled(g, s, Crash(torn, junk))
    ensures var left := Do(g, s, Crash(torn, junk)).disk;
            && Recovers(g, left, ApplyGroups(base, s.groups)) && s.returned <= |s.groups|
            && Settled(g, ApplyAll(left, RecoverWrites(g, left)), ApplyGroups(base, s.groups))
  {
    CrashDisk(g, s, torn, junk, base);
    ClearPhase(g, Do(g, s, Crash(torn, junk)).disk, ApplyGroups(base, s.groups));
  }

  /** Whenever the system serves operations, the home blocks hold exactly the
      committed transactions, and recovery can always be started after a failure. */
  lemma ServingContents(g: Geometry, s0: State, steps: seq<Step>, base: Image)
    requires Init(g, s0, base) && Legal(g, s0, steps)
    ensures var s := Exec(g, s0, steps);
            && (s.phase.Serving? ==> Settled(g, s.disk, ApplyGroups(base, s.groups)))
            && (s.phase.Down? ==> Enabled(g, s, Boot))
  {
    InitInv(g, s0, base);
    InvRun(g, s0, steps, base);
  }

  /** No interference with a commit: while one is under way no operation is
      outstanding, so end_op's panic and log_write cannot happen and begin_op only
      sleeps; the list of logged blocks and their contents stay as they are. */
  lemma CommitUndisturbed(g: Geometry, s0: State, steps: seq<Step>, base: Image, step: Step)
    requires Init(g, s0, base) && Legal(g, s0, steps)
    requires Exec(g, s0, steps).phase.Committing? && Enabled(g, Exec(g, s0, steps), step)
    ensures var s := Exec(g, s0, steps);
            var s' := Do(g, s, step);
            && s.ops == map[] && !step.LogWrite? && !step.End?
            && (step.Begin? ==> s' == s.(sleepers := s.sleepers + {step.p}))
            && (s'.phase.Committing? ==> s'.lh == s.lh && s'.cache == s.cache
                                         && s'.phase.job.writes == s.phase.job.writes)
  {
    InitInv(g, s0, base);
    InvRun(g, s0, steps, base);
  }

  /** A process sleeps in begin_op only while begin_op's own test would still make
      it sleep; in particular nobody sleeps when nothing is outstanding or committing. */
  lemma NoLostWakeup(g: Geometry, s0: State, steps: seq<Step>, base: Image)
    requires Init(g, s0, base) && Legal(g, s0, steps)
    ensures var s := Exec(g, s0, steps);
            && (s.sleepers != {} ==> Blocked(s))
            && (s.ops == map[] && !s.phase.Committing? ==> s.sleepers == {})
  {
    InitInv(g, s0, base);
    InvRun(g, s0, steps, base);
  }

  /** Reservation: the logged blocks and what the operations under way may still log
      fit in the log; entries are distinct home blocks and their slots lie in the log. */
  lemma Reservation(g: Geometry, s0: State, steps: seq<Step>, base: Image)
    requires Init(g, s0, base) && Legal(g, s0, steps)
    ensures var s := Exec(g, s0, steps);
            |s.lh| + Unused(s.ops) <= LOGSIZE && GoodHead(g, s.disk, s.lh)
  {
    InitInv(g, s0, base);
    InvRun(g, s0, steps, base);
  }

  /** begin_op's condition is a gate in the sense of the machine of processes: nothing opens it without waking who
      sleeps there, but that the power fails or the system comes up. */
  lemma OpensWithWakeup(g: Geometry, s: State, step: Step)
    requires MemInv(g, s) && Enabled(g, s, step)
    ensures Blocked(s) && !Blocked(Do(g, s, step)) ==>
            (step.End? || step.Return? || step.Crash?) && Do(g, s, step).sleepers == {}
  {
    hide GoodHead, HeadCached, Unused, CommitWrites, RecoverWrites, GroupOf, Settled, Recovers, Ready;
    match step
    case LogWrite(p, b, data) =>
      assert s.ops[p := s.ops[p] + {b}].Keys == s.ops.Keys;
    case _ =>
  }

  // ----- a batch of block writes to its end -----

  lemma {:induction false} Extend(g: Geometry, s0: State, steps: seq<Step>, step: Step)
    requires Legal(g, s0, steps) && Enabled(g, Exec(g, s0, steps), step)
    ensures Legal(g, s0, steps + [step]) && Exec(g, s0, steps + [step]) == Do(g, Exec(g, s0, steps), step)
    decreases |steps|
  {
    hide Enabled, Do;
    if steps != [] {
      Extend(g, Do(g, s0, steps[0]), steps[1..], step);
      assert (steps + [step])[1..] == steps[1..] + [step];
    }
  }

  function Writes(n: nat): seq<Step> {
    seq(n, _ => DiskWrite)
  }

  /** The state when all writes of the job have reached the disk. */
  ghost function Finished(s: State): State
    requires Busy(s) && InRange(s.phase.job.before, s.phase.job.writes)
  {
    var job := s.phase.job;
    var job' := job.(done := |job.writes|);
    s.(disk := ApplyAll(job.before, job.writes),
       phase := if s.phase.Booting? then Booting(job') else Committing(job'),
       groups := if s.phase.Committing? && s.lh != [] && job.done <= |s.lh| && HeadCached(s.lh, s.cache)
                 then s.groups + [GroupOf(s.lh, CacheData(s))] else s.groups)
  }

  lemma JobFacts(g: Geometry, s: State, base: Image)
    requires Inv(g, s, base) && Busy(s)
    ensures Progress(s.disk, s.phase.job) && s.phase.job.done <= |s.phase.job.writes|
    ensures s.phase.Committing? ==> HeadCached(s.lh, s.cache) && (s.lh != [] ==> |s.phase.job.writes| == 2 * |s.lh| + 2)
  {
    hide GoodHead, GroupOf, Settled, Recovers, ApplyGroups, Placed, RecoverWrites, MemInv, ApplyAll;
  }

  lemma {:induction false} FinishWrites(g: Geometry, s: State, n: nat, base: Image)
    requires Inv(g, s, base) && Busy(s) && n == |s.phase.job.writes| - s.phase.job.done
    ensures InRange(s.phase.job.before, s.phase.job.writes)
    ensures Legal(g, s, Writes(n)) && Exec(g, s, Writes(n)) == Finished(s)
    decreases n
  {
    hide Inv, GroupOf, ApplyAll;
    JobFacts(g, s, base);
    var job := s.phase.job;
    if n == 0 {
      assert job.writes[..job.done] == job.writes;
    } else {
      ProgressStep(s.disk, job);
      assert Enabled(g, s, DiskWrite);
      InvStep(g, s, DiskWrite, base);
      var s1 := Do(g, s, DiskWrite);
      FinishWrites(g, s1, n - 1, base);
      assert Writes(n)[1..] == Writes(n - 1);
      assert Finished(s1) == Finished(s);
    }
  }

  /** A commit that nothing interrupts, from end_op to the return. */
  lemma CommitRun(g: Geometry, s: State, base: Image)
    requires Inv(g, s, base) && s.phase.Committing? && s.phase.job.done == 0
    ensures InRange(s.phase.job.before, s.phase.job.writes)
    ensures var steps, f := Writes(|s.phase.job.writes|) + [Return], Finished(s);
            && Legal(g, s, steps)
            && Exec(g, s, steps) == f.(phase := Serving, lh := [], cache := map[], sleepers := {},
               returned := |f.groups|)
  {
    hide Inv, GroupOf, ApplyAll;
    FinishWrites(g, s, |s.phase.job.writes|, base);
    Extend(g, s, Writes(|s.phase.job.writes|), Return);
  }

  /** A recovery that nothing interrupts. */
  lemma BootRun(g: Geometry, s: State, base: Image)
    requires Inv(g, s, base) && s.phase.Down?
    ensures Ready(g, s.disk)
    ensures var steps := [Boot] + Writes(|RecoverWrites(g, s.disk)|) + [BootDone];
            && Legal(g, s, steps)
            && Exec(g, s, steps) == s.(disk := ApplyAll(s.disk, RecoverWrites(g, s.disk)), phase := Serving,
               returned := |s.groups|)
  {
    hide Inv, RecoverWrites, ApplyAll, Ready, Finished, Legal, Exec;
    BootFacts(g, s, base);
    var s1, ws := Do(g, s, Boot), Writes(|RecoverWrites(g, s.disk)|);
    FinishWrites(g, s1, |RecoverWrites(g, s.disk)|, base);
    var f := FinishedBoot(g, s, s1);
    Extend(g, s1, ws, BootDone);
    LegalAfter(g, s, Boot, ws + [BootDone]);
    assert [Boot] + (ws + [BootDone]) == [Boot] + ws + [BootDone];
  }

  lemma BootFacts(g: Geometry, s: State, base: Image)
    requires Inv(g, s, base) && s.phase.Down?
    ensures Ready(g, s.disk) && Enabled(g, s, Boot) && Inv(g, Do(g, s, Boot), base)
  {
    InvStep(g, s, Boot, base);
  }

  lemma FinishedBoot(g: Geometry, s: State, s1: State) returns (f: State)
    requires Ready(g, s.disk) && s.phase.Down? && Enabled(g, s, Boot) && s1 == Do(g, s, Boot)
    ensures s1.phase.Booting? && InRange(s1.phase.job.before, s1.phase.job.writes) && f == Finished(s1)
    ensures f == s.(disk := ApplyAll(s.disk, RecoverWrites(g, s.disk)), phase := f.phase)
    ensures f.phase.Booting? && f.phase.job.done == |f.phase.job.writes|
  {
    hide RecoverWrites, Ready, ApplyAll;
    f := Finished(s1);
  }

  lemma LegalAfter(g: Geometry, s: State, step: Step, steps: seq<Step>)
    requires Enabled(g, s, step) && Legal(g, Do(g, s, step), steps)
    ensures Legal(g, s, [step] + steps) && Exec(g, s, [step] + steps) == Exec(g, Do(g, s, step), steps)
  {
    hide Enabled, Do;
    assert ([step] + steps)[1..] == steps;
  }

  // ----- when log_write cannot overflow -----

  /** In every run, an operation that has logged fewer than MAXOPBLOCKS blocks can log one more. */
  ghost predicate SpareNeverOverflows(g: Geometry) {
    forall s0, steps, base, p :: Init(g, s0, base) && Legal(g, s0, steps) && Spare(Exec(g, s0, steps), p)
                                 ==> !Overflows(g, Exec(g, s0, steps))
  }

  predicate Spare(s: State, p: Pid) {
    p in s.ops && |s.ops[p]| < MAXOPBLOCKS
  }

  lemma SpareFits(g: Geometry, s: State, p: Pid)
    requires OpsInv(s) && Spare(s, p)
    ensures |s.lh| < LOGSIZE
  {
    UnusedAny(s.ops, p);
    UnusedAtLeast(s.ops - {p});
  }

  function ZeroBlock(): Block {
    seq(WORDS, _ => 0)
  }

  /** A disk of zeroes with LOGSIZE home blocks behind the log. */
  function Blank(g: Geometry): Image {
    seq(g.start + g.size + LOGSIZE, _ => ZeroBlock())
  }

  function Range(lo: int, n: nat): set<int> {
    if n == 0 then {} else Range(lo, n - 1) + {lo + n - 1}
  }

  function Consecutive(lo: int, n: nat): seq<int> {
    seq(n, i => lo + i)
  }

  function Zeroes(lo: int, n: nat): map<int, Block> {
    if n == 0 then map[] else Zeroes(lo, n - 1)[lo + n - 1 := ZeroBlock()]
  }

  lemma {:induction false} RangeSize(lo: int, n: nat)
    ensures |Range(lo, n)| == n && forall b :: b in Range(lo, n) <==> lo <= b < lo + n
  {
    if n > 0 { RangeSize(lo, n - 1); }
  }

  /** How many of the first m blocks operation j logs, ten to each operation. */
  function Share(m: int, j: int): nat {
    if m <= MAXOPBLOCKS * j then 0 else if m >= MAXOPBLOCKS * (j + 1) then MAXOPBLOCKS else m - MAXOPBLOCKS * j
  }

  /** Three operations are under way and have logged m blocks between them. */
  function Filled(g: Geometry, m: nat): State {
    State(Blank(g), Serving, Consecutive(g.start + g.size, m), Zeroes(g.start + g.size, m), Shares(g.start + g.size, m),
      {}, [], 0)
  }

  function Shares(h: int, m: nat): map<Pid, set<int>> {
    map[0 := Range(h, Share(m, 0)), 1 := Range(h + 10, Share(m, 1)), 2 := Range(h + 20, Share(m, 2))]
  }

  lemma BlankSettled(g: Geometry)
    requires g.size > 0
    ensures Settled(g, Blank(g), Blank(g)) && Ready(g, Blank(g))
    ensures RecoverWrites(g, Blank(g)) == [Write(g.start, ZeroBlock())]
  {
    assert HeadBlock(ZeroBlock(), []) == ZeroBlock();
  }

  lemma ReachServing(g: Geometry) returns (s0: State, steps: seq<Step>)
    requires g.size > 0
    ensures Init(g, s0, Blank(g)) && Legal(g, s0, steps)
    ensures Exec(g, s0, steps) == State(Blank(g), Serving, [], map[], map[], {}, [], 0)
  {
    BlankSettled(g);
    var d := Blank(g);
    s0 := State(d, Down, [], map[], map[], {}, [], 0);
    steps := [];
    Extend(g, s0, steps, Boot);
    steps := steps + [Boot];
    Extend(g, s0, steps, DiskWrite);
    steps := steps + [DiskWrite];
    assert d[g.start := ZeroBlock()] == d;
    Extend(g, s0, steps, BootDone);
    steps := steps + [BootDone];
  }

  lemma ReachThree(g: Geometry) returns (s0: State, steps: seq<Step>)
    requires g.size > 0
    ensures Init(g, s0, Blank(g)) && Legal(g, s0, steps) && Exec(g, s0, steps) == Filled(g, 0)
  {
    s0, steps := ReachServing(g);
    Extend(g, s0, steps, Begin(0));
    steps := steps + [Begin(0)];
    Extend(g, s0, steps, Begin(1));
    steps := steps + [Begin(1)];
    Extend(g, s0, steps, Begin(2));
    steps := steps + [Begin(2)];
    assert Exec(g, s0, steps).ops == Filled(g, 0).ops;
  }

  lemma SharesStep(h: int, m: nat)
    requires m < LOGSIZE
    ensures var j := m / MAXOPBLOCKS;
            && j in Shares(h, m) && |Shares(h, m)[j]| == m % MAXOPBLOCKS
            && Shares(h, m + 1) == Shares(h, m)[j := Shares(h, m)[j] + {h + m}]
  {
    hide Range;
    var j, k := m / MAXOPBLOCKS, m % MAXOPBLOCKS;
    RangeNext(h + 10 * j, k);
    if j == 0 {
      assert Share(m, 0) == k && Share(m + 1, 0) == k + 1 && Share(m, 1) == Share(m + 1, 1)
             && Share(m, 2) == Share(m + 1, 2);
    } else if j == 1 {
      assert Share(m, 1) == k && Share(m + 1, 1) == k + 1 && Share(m, 0) == Share(m + 1, 0)
             && Share(m, 2) == Share(m + 1, 2);
    } else {
      assert Share(m, 2) == k && Share(m + 1, 2) == k + 1 && Share(m, 0) == Share(m + 1, 0)
             && Share(m, 1) == Share(m + 1, 1);
    }
  }

  lemma RangeNext(lo: int, n: nat)
    ensures Range(lo, n + 1) == Range(lo, n) + {lo + n} && |Range(lo, n)| == n
  {
    RangeSize(lo, n);
  }

  lemma ListStep(h: int, m: nat)
    ensures h + m !in Consecutive(h, m) && Consecutive(h, m + 1) == Consecutive(h, m) + [h + m]
    ensures Zeroes(h, m + 1) == Zeroes(h, m)[h + m := ZeroBlock()]
  {
  }

  lemma FilledStep(g: Geometry, m: nat)
    requires m < LOGSIZE && m < g.size - 1
    ensures var h := g.start + g.size;
            var step := LogWrite(m / MAXOPBLOCKS, h + m, ZeroBlock());
            Enabled(g, Filled(g, m), step) && Do(g, Filled(g, m), step) == Filled(g, m + 1)
  {
    hide Shares, Zeroes, Share, Range, ZeroBlock;
    SharesStep(g.start + g.size, m);
    ListStep(g.start + g.size, m);
  }

  lemma {:induction false} ReachFilled(g: Geometry, m: nat) returns (s0: State, steps: seq<Step>)
    requires g.size > 0 && m <= LOGSIZE && m < g.size
    ensures Init(g, s0, Blank(g)) && Legal(g, s0, steps) && Exec(g, s0, steps) == Filled(g, m)
  {
    hide Enabled, Do, Filled, Init;
    if m == 0 {
      s0, steps := ReachThree(g);
    } else {
      s0, steps := ReachFilled(g, m - 1);
      FilledStep(g, m - 1);
      var step := LogWrite((m - 1) / MAXOPBLOCKS, g.start + g.size + m - 1, ZeroBlock());
      Extend(g, s0, steps, step);
      steps := steps + [step];
    }
  }

  lemma SpareReach(g: Geometry, m: nat) returns (s0: State, steps: seq<Step>, p: Pid)
    requires m < LOGSIZE && m < g.size
    ensures Init(g, s0, Blank(g)) && Legal(g, s0, steps)
    ensures Spare(Exec(g, s0, steps), p) && |Exec(g, s0, steps).lh| == m
  {
    hide Init, Legal, Enabled, Do, Shares;
    s0, steps := ReachFilled(g, m);
    p := m / MAXOPBLOCKS;
    SharesStep(g.start + g.size, m);
  }

  lemma RoomForSpare(g: Geometry, s0: State, steps: seq<Step>, base: Image, p: Pid)
    requires g.size > LOGSIZE && Init(g, s0, base) && Legal(g, s0, steps) && Spare(Exec(g, s0, steps), p)
    ensures !Overflows(g, Exec(g, s0, steps))
  {
    hide Init, Legal, Enabled, Do, Exec, OpsInv, DiskInv;
    InitInv(g, s0, base);
    InvRun(g, s0, steps, base);
    SpareFits(g, Exec(g, s0, steps), p);
  }

  /** log_write's fullness test is safe for every operation with reservation left
      exactly when the log has more than LOGSIZE blocks, header included. */
  lemma OverflowCondition(g: Geometry)
    requires g.size > 0
    ensures SpareNeverOverflows(g) <==> g.size > LOGSIZE
  {
    hide Init, Legal, Enabled, Do, Spare;
    if g.size > LOGSIZE {
      forall s0, steps, base, p | Init(g, s0, base) && Legal(g, s0, steps) && Spare(Exec(g, s0, steps), p)
        ensures !Overflows(g, Exec(g, s0, steps))
      {
        RoomForSpare(g, s0, steps, base, p);
      }
    } else {
      var s0, steps, p := SpareReach(g, g.size - 1);
      assert Overflows(g, Exec(g, s0, steps));
    }
  }

  /** The image that mkfs writes has nlog == LOGSIZE: there an operation within its
      reservation can be made to panic. */
  lemma MkfsLogTooSmall(g: Geometry) returns (s0: State, steps: seq<Step>, p: Pid)
    requires g.size == LOGSIZE
    ensures Init(g, s0, Blank(g)) && Legal(g, s0, steps)
    ensures Spare(Exec(g, s0, steps), p) && Overflows(g, Exec(g, s0, steps))
  {
    s0, steps, p := SpareReach(g, LOGSIZE - 1);
  }

  /** Whatever the size of the log, writing once more to a block that is already logged
      can panic: the fullness test comes before the search for the block. */
  lemma AbsorptionOverflows(g: Geometry) returns (s0: State, steps: seq<Step>, p: Pid, b: int)
    requires g.size > 1
    ensures Init(g, s0, Blank(g)) && Legal(g, s0, steps)
    ensures var s := Exec(g, s0, steps); p in s.ops && b in s.ops[p] && b in s.lh && Overflows(g, s)
  {
    hide Init, Legal, Enabled, Do;
    var m := if g.size > LOGSIZE then LOGSIZE else g.size - 1;
    s0, steps := ReachFilled(g, m);
    p, b := 0, g.start + g.size;
    assert Filled(g, m).lh[0] == b;
    RangeSize(b, Share(m, 0));
  }
}
