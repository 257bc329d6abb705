/**
 A full log leaves no buffer for its commit. NBUF equals LOGSIZE, so when three
 operations have logged the most they may, every buffer is pinned, and commit's
 first read of a log block meets the panic in bget.
 */
module LogLimit {
  import opened Options
  import opened Disk
  import opened Bio
  import opened LogSpec
  import opened LogCache
  import opened LogSystem
  import opened Log

  /** The blocks referenced are those of the transaction. */
  ghost predicate OnlyPins(a: Cache, lh: seq<int>) {
    && a.held == map[] && |a.refs| == |a.disk|
    && (forall b :: 0 <= b < |a.refs| ==> (a.refs[b] > 0 <==> b in lh))
  }

  lemma NoOthers(a: Cache, lh: seq<int>)
    requires OnlyPins(a, lh)
    ensures Others(a.refs, lh) == {}
  {
  }

  /** The next block to log is not cached, and there is a buffer for it. */
  lemma NextBlock(g: Geometry, a: Cache, s: State, m: nat)
    requires m < LOGSIZE && s == Filled(g, m) && a.disk == s.disk && OnlyPins(a, s.lh) && Tracks(g, a, s.lh, s.cache)
    ensures var b := g.start + g.size + m;
            Home(g, a.disk, b) && b !in s.lh && |Held(a.refs)| < NBUF && b < |a.views| && a.views[b] == ZeroBlock()
  {
    var lh, b := s.lh, g.start + g.size + m;
    assert TrackAt(g, a, lh, s.cache, b);
    var pins := set c: nat | c < |a.refs| && c in lh;
    PinsSize(lh, a.refs, pins);
    assert Held(a.refs) == pins;
  }

  lemma PinsMore(a: Cache, a': Cache, lh: seq<int>, b: nat)
    requires OnlyPins(a, lh) && b < |a.refs| && a.refs[b] == 0 && a'.disk == a.disk && a'.held == map[]
    requires a'.refs == a.refs[b := 1]
    ensures OnlyPins(a', Absorbed(lh, b))
  {
  }

  /** One more block is logged by the operation whose turn it is. */
  method LogOne(log: LogState, m: nat)
    requires log.Valid() && log.up && m < LOGSIZE < log.g.size
    requires log.Sys() == Filled(log.g, m) && OnlyPins(log.bc.abs, log.lh)
    modifies log, log.bc
    ensures log.Valid() && log.up && log.Sys() == Filled(log.g, m + 1) && OnlyPins(log.bc.abs, log.lh)
  {
    hide Bcache.Valid, Tracks, Inv, Held, Filled, Do, Enabled;
    var b := log.g.start + log.g.size + m;
    ghost var a, s := log.bc.abs, log.Sys();
    FilledFacts(log.g, m);
    NextBlock(log.g, a, s, m);
    var r := log.Bread(b);
    FilledStep(log.g, m);
    var res := log.LogWrite(m / MAXOPBLOCKS, r.value, b);
    DoLogWrite(log.g, s, m / MAXOPBLOCKS, b, ZeroBlock());
    TracksShape(log.g, log.bc.abs, log.lh, log.logged);
    log.Brelse(r.value, b);
    assert log.bc.abs.held == map[];
    assert log.bc.abs.refs == a.refs[b := 1];
    PinsMore(a, log.bc.abs, s.lh, b);
  }

  lemma FilledFacts(g: Geometry, m: nat)
    requires m < LOGSIZE
    ensures var s, p := Filled(g, m), m / MAXOPBLOCKS;
            && |s.lh| == m && |s.ops| == 3 && p in s.ops && |s.ops[p]| < MAXOPBLOCKS
  {
    hide Range, Share;
    SharesStep(g.start + g.size, m);
    ThreeKeys(Filled(g, m).ops);
  }

  lemma ThreeKeys(ops: map<Pid, set<int>>)
    requires ops.Keys == {0, 1, 2}
    ensures |ops| == 3
  {
    assert |ops| == |ops.Keys|;
  }

  lemma DoLogWrite(g: Geometry, s: State, p: Pid, b: int, data: Block)
    requires Enabled(g, s, Step.LogWrite(p, b, data))
    ensures Do(g, s, Step.LogWrite(p, b, data)).cache == s.cache[b := data]
    ensures Do(g, s, Step.LogWrite(p, b, data)).lh == Absorbed(s.lh, b)
  {
  }

  function Idle(g: Geometry): State {
    State(Blank(g), Serving, [], map[], map[], {}, [], 0)
  }

  lemma Booted(g: Geometry)
    requires g.size > 0
    ensures Recovers(g, Blank(g), ApplyGroups(Blank(g), [])) && Ready(g, Blank(g))
    ensures var s0, steps := Idle(g).(phase := Down), [Boot] + Writes(|RecoverWrites(g, Blank(g))|) + [BootDone];
            Legal(g, s0, steps) && Exec(g, s0, steps) == Idle(g)
  {
    BlankSettled(g);
    SettledRecovers(g, Blank(g), Blank(g));
    var s0 := Idle(g).(phase := Down);
    InitInv(g, s0, Blank(g));
    BootRun(g, s0, Blank(g));
    assert Blank(g)[g.start := ZeroBlock()] == Blank(g);
  }

  /** The first n processes are in an operation and have logged nothing. */
  function Begun(n: nat): map<Pid, set<int>> {
    if n == 0 then map[] else Begun(n - 1)[n - 1 := {}]
  }

  lemma {:induction false} BegunSize(n: nat)
    ensures |Begun(n)| == n && forall p: Pid :: p in Begun(n) <==> p < n
  {
    if n > 0 {
      BegunSize(n - 1);
      var m := Begun(n - 1);
      assert Begun(n).Keys == m.Keys + {n - 1};
      assert |Begun(n)| == |Begun(n).Keys| && |m| == |m.Keys|;
    }
  }

  lemma BeginStep(g: Geometry, s: State, p: Pid)
    requires p < 3 && s == Idle(g).(ops := Begun(p))
    ensures Enabled(g, s, Begin(p)) && Do(g, s, Begin(p)) == Idle(g).(ops := Begun(p + 1))
  {
    BegunSize(p);
  }

  lemma AllBegun(g: Geometry)
    ensures Idle(g).(ops := Begun(3)) == Filled(g, 0)
  {
    assert Begun(3) == map[0 := {}, 1 := {}, 2 := {}];
    assert Filled(g, 0).ops == map[0 := {}, 1 := {}, 2 := {}];
    assert Filled(g, 0).lh == [];
  }

  lemma Ended(g: Geometry, s: State, p: Pid)
    requires Enabled(g, s, End(p))
    ensures Do(g, s, End(p)).ops == s.ops - {p} && Do(g, s, End(p)).lh == s.lh
  {
  }

  /** A log on a blank disk, with three operations begun. */
  method Start(g: Geometry) returns (log: LogState)
    requires g.size > 0
    ensures fresh(log) && fresh(log.bc) && log.g == g && log.Valid() && log.up
    ensures log.Sys() == Filled(g, 0) && OnlyPins(log.bc.abs, log.lh)
  {
    hide Bcache.Valid, Tracks, Inv, Held, Do, Enabled, Legal, Exec, Recovers, RecoverWrites, Ready, Blank, Filled,
         Begun;
    Booted(g);
    var bc := new Bcache(Blank(g));
    log := new LogState(g, bc, Blank(g), [], 0);
    log.Recover();
    BegunNone(g);
    var p := 0;
    while p < 3
      invariant fresh(log) && fresh(log.bc) && log.g == g && 0 <= p <= 3
      invariant log.Valid() && log.up && log.Sys() == Idle(g).(ops := Begun(p)) && OnlyPins(log.bc.abs, log.lh)
    {
      BeginStep(g, log.Sys(), p);
      BegunFresh(p);
      var ok := log.BeginOp(p);
      p := p + 1;
    }
    AllBegun(g);
  }

  lemma BegunNone(g: Geometry)
    ensures Idle(g).(ops := Begun(0)) == Idle(g)
  {
  }

  lemma BegunFresh(p: Pid)
    ensures p !in Begun(p)
  {
    BegunSize(p);
  }

  /** The three operations end; the last one is to commit. */
  method EndAll(log: LogState)
    requires log.Valid() && log.up && log.ops.Keys == {0, 1, 2}
    modifies log
    ensures log.Valid() && log.committing && log.lh == old(log.lh)
  {
    hide Bcache.Valid, Tracks, Inv, Held, Do, Enabled;
    ghost var s := log.Sys();
    var last := log.EndOp(0);
    Ended(log.g, s, 0);
    s := log.Sys();
    last := log.EndOp(1);
    Ended(log.g, s, 1);
    s := log.Sys();
    last := log.EndOp(2);
    Ended(log.g, s, 2);
  }

  /** Three operations log ten blocks each and end: the commit fails for want of a buffer. */
  method FullLogPanics(g: Geometry) returns (log: LogState, ok: bool)
    requires g.size > LOGSIZE
    ensures !ok && |log.lh| == LOGSIZE
  {
    hide Bcache.Valid, Tracks, Inv, Held, Others, Filled;
    log := Start(g);
    var m := 0;
    while m < LOGSIZE
      invariant fresh(log) && fresh(log.bc) && log.g == g && 0 <= m <= LOGSIZE
      invariant log.Valid() && log.up && log.Sys() == Filled(g, m) && OnlyPins(log.bc.abs, log.lh)
    {
      LogOne(log, m);
      m := m + 1;
    }
    FullFacts(g);
    EndAll(log);
    NoOthers(log.bc.abs, log.lh);
    ok := log.CommitAndWake();
  }

  lemma FullFacts(g: Geometry)
    ensures |Filled(g, LOGSIZE).lh| == LOGSIZE && Filled(g, LOGSIZE).ops.Keys == {0, 1, 2}
  {
  }
}
