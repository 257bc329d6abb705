/**
 The log on the buffer cache: begin_op, log_write, end_op, commit and recovery.
 Each method does to the disk and the header what the steps of LogSystem do, so
 that every run of these methods is a run of that system, and the block writes
 of a commit carry the contents that were last handed to log_write.
 */
module Log {
  import opened Options
  import opened Disk
  import opened Bio
  import opened LogSpec
  import opened LogCache
  import opened LogSystem
  import Sets

  datatype LogResult = Recorded | TooBig | OutsideTransaction

  /** Nothing is referenced or held, and the cache has what the disk has. */
  predicate Untouched(a: Cache) {
    && |a.views| == |a.refs| == |a.disk| && a.held == map[] && a.views == a.disk
    && forall b :: 0 <= b < |a.refs| ==> a.refs[b] == 0
  }

  ghost predicate Committable(g: Geometry, disk: Image, lh: seq<int>, logged: map<int, Block>) {
    Placed(g, disk) && GoodHead(g, disk, lh) && HeadCached(lh, logged)
  }

  ghost function PhaseOf(g: Geometry, disk: Image, lh: seq<int>, logged: map<int, Block>, up: bool,
                         committing: bool): Phase {
    if !up then Down
    else if committing && Committable(g, disk, lh, logged) then
      Committing(Job(disk, CommitWrites(g, disk[g.start], lh, DataOf(lh, logged)), 0))
    else Serving
  }

  // ----- the cache against the transaction -----

  /** Nobody has a log block. A block of the transaction is pinned, besides the reference of a process that
      holds it, and has the contents last logged unless somebody holds it. Any other block is as on disk
      unless somebody holds it. */
  predicate TrackAt(g: Geometry, a: Cache, lh: seq<int>, logged: map<int, Block>, b: nat) {
    b < |a.disk| == |a.views| == |a.refs| ==>
      if InLog(g, b) then
        a.refs[b] == 0 && a.views[b] == a.disk[b] && b !in a.held
      else if b in lh then
        b in logged && a.refs[b] > (if b in a.held then 1 else 0) && (b !in a.held ==> a.views[b] == logged[b])
      else
        (b in a.held ==> a.refs[b] > 0) && (b !in a.held ==> a.views[b] == a.disk[b])
  }

  ghost predicate Tracks(g: Geometry, a: Cache, lh: seq<int>, logged: map<int, Block>) {
    && |a.views| == |a.refs| == |a.disk| && (forall b :: b in a.held ==> b < |a.disk|)
    && (forall b: nat {:trigger TrackAt(g, a, lh, logged, b)} :: TrackAt(g, a, lh, logged, b))
  }

  lemma TracksShape(g: Geometry, a: Cache, lh: seq<int>, logged: map<int, Block>)
    requires Tracks(g, a, lh, logged)
    ensures |a.views| == |a.refs| == |a.disk|
  {
  }

  lemma TracksRead(g: Geometry, a: Cache, lh: seq<int>, logged: map<int, Block>, b: nat, i: nat)
    requires Tracks(g, a, lh, logged) && Home(g, a.disk, b) && b !in a.held
    ensures Tracks(g, Referenced(a, b, i), lh, logged)
  {
    var a' := Referenced(a, b, i);
    forall c: nat ensures TrackAt(g, a', lh, logged, c) { assert TrackAt(g, a, lh, logged, c); }
  }

  lemma TracksSet(g: Geometry, a: Cache, lh: seq<int>, logged: map<int, Block>, b: nat, data: Block)
    requires Tracks(g, a, lh, logged) && b in a.held
    ensures b < |a.views| && Tracks(g, a.(views := a.views[b := data]), lh, logged)
  {
    var a' := a.(views := a.views[b := data]);
    assert TrackAt(g, a, lh, logged, b);
    forall c: nat ensures TrackAt(g, a', lh, logged, c) { assert TrackAt(g, a, lh, logged, c); }
  }

  lemma TracksNew(g: Geometry, a: Cache, lh: seq<int>, logged: map<int, Block>, b: nat)
    requires Tracks(g, a, lh, logged) && b in a.held && b !in lh && b < |a.refs| && b < |a.views|
    ensures Tracks(g, Pin(a, b), lh + [b], logged[b := a.views[b]])
  {
    var a', logged' := Pin(a, b), logged[b := a.views[b]];
    forall c: nat ensures TrackAt(g, a', lh + [b], logged', c) {
      assert TrackAt(g, a, lh, logged, c);
      assert c in lh + [b] <==> c in lh || c == b;
    }
  }

  lemma TracksAgain(g: Geometry, a: Cache, lh: seq<int>, logged: map<int, Block>, b: nat)
    requires Tracks(g, a, lh, logged) && b in a.held && b in lh && b < |a.views|
    ensures Tracks(g, a, lh, logged[b := a.views[b]])
  {
    var logged' := logged[b := a.views[b]];
    forall c: nat ensures TrackAt(g, a, lh, logged', c) { assert TrackAt(g, a, lh, logged, c); }
  }

  lemma TracksRelease(g: Geometry, a: Cache, lh: seq<int>, logged: map<int, Block>, b: nat)
    requires Tracks(g, a, lh, logged) && b in a.held && b < |a.views| == |a.disk|
    requires a.views[b] == if b in lh && b in logged then logged[b] else a.disk[b]
    ensures b < |a.refs| && a.refs[b] > 0 && (a.refs[b] > 1 || a.views[b] == a.disk[b])
    ensures Tracks(g, a.(refs := a.refs[b := a.refs[b] - 1], held := a.held - {b}), lh, logged)
  {
    assert TrackAt(g, a, lh, logged, b);
    var a' := a.(refs := a.refs[b := a.refs[b] - 1], held := a.held - {b});
    forall c: nat ensures TrackAt(g, a', lh, logged, c) { assert TrackAt(g, a, lh, logged, c); }
  }

  /** Held blocks are home blocks. */
  lemma HeldHome(g: Geometry, a: Cache, lh: seq<int>, logged: map<int, Block>, b: nat)
    requires Tracks(g, a, lh, logged) && b in a.held
    ensures Home(g, a.disk, b) && b < |a.views| && b < |a.refs|
  {
    assert TrackAt(g, a, lh, logged, b);
  }

  // ----- before and after a commit -----

  /** With no block of the transaction held, commit finds in the cache what was last logged. */
  lemma QuietTracks(g: Geometry, a: Cache, lh: seq<int>, logged: map<int, Block>)
    requires Tracks(g, a, lh, logged) && Committable(g, a.disk, lh, logged) && forall i ::
             0 <= i < |lh| ==> lh[i] !in a.held
    ensures Quiet(g, lh, a) && Pinned(lh, a.refs, 0)
    ensures (forall i :: 0 <= i < |lh| ==> 0 <= lh[i] < |a.views|) && Contents(a.views, lh) == DataOf(lh, logged)
  {
    forall b: nat ensures TrackAt(g, a, lh, logged, b) {}
    forall i | 0 <= i < |lh| ensures 0 <= lh[i] < |a.views| && a.refs[lh[i]] > 0 && a.views[lh[i]] == logged[lh[i]] {
      assert Home(g, a.disk, lh[i]) && TrackAt(g, a, lh, logged, lh[i]);
    }
    forall b | InLog(g, b) ensures a.refs[b] == 0 && a.views[b] == a.disk[b] { assert TrackAt(g, a, lh, logged, b); }
    forall b | b in a.held ensures !InLog(g, b) && b !in lh { assert TrackAt(g, a, lh, logged, b); }
    assert Contents(a.views, lh) == DataOf(lh, logged);
  }

  /** The blocks outside the transaction that somebody references. */
  ghost function Others(refs: seq<nat>, lh: seq<int>): set<nat> {
    set b | 0 <= b < |refs| && refs[b] > 0 && b !in lh
  }

  /** What bget must find room beside: the pinned blocks and those others. */
  lemma PinnedCount(g: Geometry, disk: Image, lh: seq<int>, refs: seq<nat>)
    requires GoodHead(g, disk, lh) && Pinned(lh, refs, 0)
    ensures Room(refs, 1) <==> |lh| + |Others(refs, lh)| < NBUF
  {
    var pins := set b: nat | b < |refs| && b in lh;
    PinsSize(lh, refs, pins);
    assert Held(refs) == pins + Others(refs, lh);
    Sets.UnionSize(pins, Others(refs, lh));
    RoomIs(refs);
  }

  lemma {:induction false} PinsSize(lh: seq<int>, refs: seq<nat>, pins: set<nat>)
    requires pins == set b: nat | b < |refs| && b in lh
    requires (forall i :: 0 <= i < |lh| ==> 0 <= lh[i] < |refs|) && forall i, j :: 0 <= i < j < |lh| ==> lh[i] != lh[j]
    ensures |pins| == |lh|
    decreases |lh|
  {
    if lh != [] {
      var init, last: nat := lh[..|lh| - 1], lh[|lh| - 1];
      assert lh == init + [last];
      var rest := set b: nat | b < |refs| && b in init;
      PinsSize(init, refs, rest);
      assert pins == rest + {last};
    }
  }

  /** The same writes to two images leave them alike where they were or where they are written. */
  lemma {:induction false} SameWrites(d: Image, e: Image, ws: seq<Write>, b: nat)
    requires |d| == |e| && InRange(d, ws) && InRange(e, ws) && b < |d|
    requires d[b] == e[b] || exists i :: 0 <= i < |ws| && ws[i].bno == b
    ensures ApplyAll(d, ws)[b] == ApplyAll(e, ws)[b]
    decreases |ws|
  {
    if ws != [] && ws[|ws| - 1].bno != b {
      var init := ws[..|ws| - 1];
      assert d[b] == e[b] || exists i :: 0 <= i < |init| && init[i].bno == b by {
        if d[b] != e[b] {
          var i :| 0 <= i < |ws| && ws[i].bno == b;
          assert init[i].bno == b;
        }
      }
      SameWrites(d, e, init, b);
    }
  }

  lemma TracksCommitted(g: Geometry, a: Cache, lh: seq<int>, logged: map<int, Block>, ws: seq<Write>)
    requires Tracks(g, a, lh, logged) && Committable(g, a.disk, lh, logged) && forall i ::
             0 <= i < |lh| ==> lh[i] !in a.held
    requires ws == CommitWrites(g, a.disk[g.start], lh, DataOf(lh, logged)) && InRange(a.disk, ws)
    ensures Tracks(g, Released(WroteAll(a, ws), lh, false), [], map[])
  {
    hide ApplyAll, HeadBlock, CommitWrites;
    var a' := Released(WroteAll(a, ws), lh, false);
    forall b: nat ensures TrackAt(g, a', [], map[], b) {
      assert TrackAt(g, a, lh, logged, b);
      if b < |a.disk| {
        HomeWritten(g, a.disk[g.start], lh, DataOf(lh, logged), b);
        if b !in a.held { SameWrites(a.disk, a.views, ws, b); }
      }
    }
  }

  lemma HomeWritten(g: Geometry, hb: Block, lh: seq<int>, data: seq<Block>, b: nat)
    requires |lh| == |data| && |lh| <= LOGSIZE && (forall i :: 0 <= i < |lh| ==> lh[i] >= 0)
    ensures b in lh ==> exists i :: 0 <= i < |CommitWrites(g, hb, lh, data)|
                                    && CommitWrites(g, hb, lh, data)[i].bno == b
  {
    if b in lh {
      var ws, k := CommitWrites(g, hb, lh, data), Position(lh, b);
      assert ws[|lh| + 1 + k] == InstallWrites(lh, data)[k];
    }
  }

  // ----- the fields against the system -----

  lemma PhaseFacts(g: Geometry, s: State, base: Image, up: bool, committing: bool)
    requires Inv(g, s, base) && s.phase == PhaseOf(g, s.disk, s.lh, s.cache, up, committing) && up
    ensures Committable(g, s.disk, s.lh, s.cache) && (committing <==> s.phase.Committing?)
            && (!committing <==> s.phase.Serving?)
  {
    hide DiskInv, OpsInv, GoodHead, HeadCached, CommitWrites;
  }

  lemma EndFacts(g: Geometry, s: State, p: Pid, base: Image, up: bool, committing: bool)
    requires Inv(g, s, base) && s.phase == PhaseOf(g, s.disk, s.lh, s.cache, up, committing) && p in s.ops
    ensures up && !committing && s.phase.Serving? && Committable(g, s.disk, s.lh, s.cache) && Enabled(g, s, End(p))
  {
    hide DiskInv, GoodHead, CommitWrites, Unused;
  }

  lemma LogWriteFacts(g: Geometry, s: State, a: Cache, base: Image, p: Pid, b: nat, up: bool, committing: bool)
    requires Inv(g, s, base) && s.phase == PhaseOf(g, s.disk, s.lh, s.cache, up, committing)
    requires Tracks(g, a, s.lh, s.cache) && a.disk == s.disk && b in a.held
    requires |s.ops| > 0 ==> p in s.ops && (b in s.ops[p] || |s.ops[p]| < MAXOPBLOCKS)
    ensures b < |a.views| && b < |a.refs|
    ensures |s.ops| > 0 ==> up && !committing && (!Overflows(g, s) ==> Enabled(g, s, Step.LogWrite(p, b, a.views[b])))
  {
    hide DiskInv, GoodHead, CommitWrites, Unused, Tracks, Home;
    HeldHome(g, a, s.lh, s.cache, b);
    if |s.ops| > 0 { EndFacts(g, s, p, base, up, committing); }
  }

  lemma StartTracks(g: Geometry, a: Cache, base: Image, groups: seq<Group>, returned: nat)
    requires Untouched(a) && Recovers(g, a.disk, ApplyGroups(base, groups)) && returned <= |groups|
    ensures Tracks(g, a, [], map[])
    ensures Inv(g, State(a.disk, Down, [], map[], map[], {}, groups, returned), base)
  {
    forall b: nat ensures TrackAt(g, a, [], map[], b) {}
  }

  lemma BootStart(g: Geometry, s: State, a: Cache, base: Image)
    requires Inv(g, s, base) && s.phase.Down? && Untouched(a) && a.disk == s.disk
    ensures Quiet(g, [], a) && a.held == map[] && Room(a.refs, 2) && Ready(g, a.disk) && s.lh == []
  {
    assert Held(a.refs) == {};
  }

  lemma BootEnd(g: Geometry, s: State, a: Cache, a': Cache, base: Image)
    requires Inv(g, s, base) && s.phase.Down? && Untouched(a) && a.disk == s.disk && Ready(g, s.disk)
    requires a' == WroteAll(a, RecoverWrites(g, s.disk))
    ensures Untouched(a') && a'.disk == ApplyAll(s.disk, RecoverWrites(g, s.disk)) && Tracks(g, a', [], s.cache)
    ensures var steps := [Boot] + Writes(|RecoverWrites(g, s.disk)|) + [BootDone];
            Legal(g, s, steps) && Inv(g, Exec(g, s, steps), base)
  {
    hide RecoverWrites, ApplyAll, Ready, Inv, Legal, Exec;
    forall b: nat ensures TrackAt(g, a', [], s.cache, b) {}
    BootRun(g, s, base);
    InvRun(g, s, [Boot] + Writes(|RecoverWrites(g, s.disk)|) + [BootDone], base);
  }

  lemma CommitStarts(g: Geometry, s: State, a: Cache, base: Image, up: bool)
    requires Inv(g, s, base) && s.phase == PhaseOf(g, s.disk, s.lh, s.cache, up, true) && up
    requires Tracks(g, a, s.lh, s.cache) && a.disk == s.disk && forall i :: 0 <= i < |s.lh| ==> s.lh[i] !in a.held
    ensures Committable(g, s.disk, s.lh, s.cache) && Quiet(g, s.lh, a) && Pinned(s.lh, a.refs, 0)
    ensures s.phase == Committing(Job(s.disk, CommitWrites(g, s.disk[g.start], s.lh, CacheData(s)), 0))
    ensures (forall i :: 0 <= i < |s.lh| ==> 0 <= s.lh[i] < |a.views|) && Contents(a.views, s.lh) == CacheData(s)
  {
    hide Inv, Tracks, Quiet, Pinned, CommitWrites, GoodHead;
    PhaseFacts(g, s, base, up, true);
    QuietTracks(g, a, s.lh, s.cache);
  }

  lemma CommitEnds(g: Geometry, s: State, a: Cache, base: Image, ws: seq<Write>)
    requires Inv(g, s, base) && Committable(g, s.disk, s.lh, s.cache)
    requires ws == CommitWrites(g, s.disk[g.start], s.lh, CacheData(s)) && InRange(s.disk, ws)
             && s.phase == Committing(Job(s.disk, ws, 0))
    requires Tracks(g, a, s.lh, s.cache) && a.disk == s.disk && forall i :: 0 <= i < |s.lh| ==> s.lh[i] !in a.held
    ensures var a' := Released(WroteAll(a, ws), s.lh, false); Tracks(g, a', [], map[]) && a'.disk == Finished(s).disk
    ensures Legal(g, s, Writes(|ws|) + [Return]) && Inv(g, Exec(g, s, Writes(|ws|) + [Return]), base)
  {
    hide Inv, Tracks, CommitWrites, GoodHead, ApplyAll, Legal, Exec, GroupOf;
    TracksCommitted(g, a, s.lh, s.cache, ws);
    CommitRun(g, s, base);
    InvRun(g, s, Writes(|ws|) + [Return], base);
  }

  class LogState {
    const g: Geometry
    const bc: Bcache
    var lh: seq<int>
    var outstanding: nat
    var committing: bool
    ghost var up: bool                  // recovery has been done
    ghost var logged: map<int, Block>   // the contents last handed to log_write
    ghost var ops: map<Pid, set<int>>   // the operations under way, with the blocks each has logged
    ghost var sleepers: set<Pid>        // processes asleep in begin_op
    ghost var groups: seq<Group>        // the transactions committed since `base`
    ghost var returned: nat             // how many of them commit has returned from
    ghost const base: Image

    /** The state of the whole system that these fields stand for. */
    ghost function Sys(): State
      reads this, bc
    {
      State(bc.abs.disk, PhaseOf(g, bc.abs.disk, lh, logged, up, committing), lh, logged, ops, sleepers, groups,
        returned)
    }

    ghost predicate Valid()
      reads this, bc
    {
      && bc.Valid() && Tracks(g, bc.abs, lh, logged) && Inv(g, Sys(), base)
      && outstanding == |ops| && (committing ==> up)
      && (!up ==> Untouched(bc.abs))
    }

    /** A log on a disk that recovers to the transactions given, as a crash leaves it; recovery is still to be done. */
    constructor (g: Geometry, bc: Bcache, ghost base: Image, ghost groups: seq<Group>, ghost returned: nat)
      requires bc.Valid() && Untouched(bc.abs) && Recovers(g, bc.abs.disk, ApplyGroups(base, groups))
               && returned <= |groups|
      ensures this.g == g && this.bc == bc && Valid()
      ensures Sys() == State(bc.abs.disk, Down, [], map[], map[], {}, groups, returned) && this.base == base
    {
      this.g, this.bc, this.base, this.groups, this.returned := g, bc, base, groups, returned;
      lh, outstanding, committing := [], 0, false;
      up, logged, ops, sleepers := false, map[], map[], {};
      new;
      StartTracks(g, bc.abs, base, groups, returned);
    }

    /** bread, where the caller can show that a buffer is to be had. */
    method MustRead(b: nat) returns (i: nat)
      requires bc.Valid() && b < |bc.abs.refs| && b !in bc.abs.held
      requires bc.abs.refs[b] > 0 || Room(bc.abs.refs, 1)
      modifies bc`buf, bc`abs
      ensures bc.Valid() && bc.abs == Referenced(old(bc.abs), b, i)
    {
      var r := bc.Bread(b);
      i := r.value;
    }

    /** write_head */
    method WriteHead()
      requires bc.Valid() && Quiet(g, lh, bc.abs) && Room(bc.abs.refs, 1)
      modifies bc
      ensures bc.Valid()
      ensures bc.abs == Wrote(old(bc.abs), g.start, HeadBlock(old(bc.abs).disk[g.start], lh))
      ensures bc.trace == old(bc.trace) + [Write(g.start, HeadBlock(old(bc.abs).disk[g.start], lh))]
    {
      hide Bcache.Valid, Quiet, Pinned, Room, GoodHead, Placed, HeadBlock, ApplyAll, InRange, LogWrites, Contents,
           WroteAll;
      ghost var a := bc.abs;
      LogBlockFacts(g, lh, a, g.start);
      var i := MustRead(g.start);
      var data := bc.Data(i, g.start);
      bc.SetData(i, g.start, HeadBlock(data, lh));
      bc.Bwrite(i, g.start);
      bc.Brelse(i, g.start);
      assert bc.abs.refs == a.refs && bc.abs.held == a.held;
    }

    /** Copy the data of one held buffer into another and write that one out. */
    method CopyAndWrite(to: nat, dst: nat, from: nat, src: nat)
      requires bc.Valid() && bc.Owns(to, dst) && bc.Owns(from, src)
      requires dst < |bc.abs.disk| == |bc.abs.views| && src < |bc.abs.views|
      modifies bc
      ensures bc.Valid()
      ensures bc.abs == Wrote(old(bc.abs), dst, old(bc.abs).views[src])
      ensures bc.trace == old(bc.trace) + [Write(dst, old(bc.abs).views[src])]
    {
      hide Bcache.Valid, Quiet, Pinned, Room, GoodHead, Placed, HeadBlock, ApplyAll, InRange, LogWrites, Contents,
           WroteAll;
      var data := bc.Data(from, src);
      bc.SetData(to, dst, data);
      bc.Bwrite(to, dst);
    }

    /** One round of the loop in write_log: copy a logged block from the cache to its slot. */
    method WriteLogBlock(tail: nat) returns (ok: bool)
      requires bc.Valid() && Quiet(g, lh, bc.abs) && Pinned(lh, bc.abs.refs, 0) && tail < |lh|
      modifies bc
      ensures bc.Valid() && (ok <==> Room(old(bc.abs).refs, 1))
      ensures ok ==> bc.abs == Wrote(old(bc.abs), g.start + 1 + tail, old(bc.abs).views[lh[tail]])
      ensures ok ==> bc.trace == old(bc.trace) + [Write(g.start + 1 + tail, old(bc.abs).views[lh[tail]])]
      ensures !ok ==> bc.abs == old(bc.abs) && bc.trace == old(bc.trace)
    {
      hide Bcache.Valid, Quiet, Pinned, Room, GoodHead, Placed, HeadBlock, ApplyAll, InRange, LogWrites, Contents,
           WroteAll;
      ghost var a := bc.abs;
      var slot, b := g.start + 1 + tail, lh[tail];
      LogBlockFacts(g, lh, a, slot);
      HomeFacts(g, lh, a, tail);
      PinnedFacts(lh, a.refs, 0, tail);
      RoomIs(a.refs);
      var r := bc.Bread(slot);
      if r.None? {
        return false;                                     // bget panics
      }
      var to := r.value;
      var from := MustRead(b);
      CopyAndWrite(to, slot, from, b);
      bc.Brelse(from, b);
      bc.Brelse(to, slot);
      assert bc.abs.refs == a.refs && bc.abs.held == a.held;
      return true;
    }

    /** write_log; false where bget panics because no buffer is left for a log block. */
    method WriteLog() returns (ok: bool)
      requires bc.Valid() && Quiet(g, lh, bc.abs) && Pinned(lh, bc.abs.refs, 0)
      modifies bc
      ensures bc.Valid() && (ok <==> lh == [] || Room(old(bc.abs).refs, 1))
      ensures InRange(old(bc.abs).disk, LogWrites(g, Contents(old(bc.abs).views, lh)))
      ensures ok ==> bc.abs == WroteAll(old(bc.abs), LogWrites(g, Contents(old(bc.abs).views, lh)))
      ensures ok ==> bc.trace == old(bc.trace) + LogWrites(g, Contents(old(bc.abs).views, lh))
      ensures !ok ==> bc.abs == old(bc.abs) && bc.trace == old(bc.trace)
    {
      hide Bcache.Valid, Quiet, Pinned, Room, GoodHead, Placed, HeadBlock, ApplyAll, InRange, LogWrites, Contents,
           WroteAll;
      ghost var a := bc.abs;
      ghost var ws := SlotStart(g, lh, a);
      for tail := 0 to |lh|
        invariant bc.Valid()
        invariant InRange(a.disk, ws[..tail]) && bc.abs == WroteAll(a, ws[..tail])
        invariant bc.trace == old(bc.trace) + ws[..tail] && (tail > 0 ==> Room(a.refs, 1))
      {
        SlotRound(g, a, lh, tail, ws);
        ok := WriteLogBlock(tail);
        if !ok {
          return;
        }
        assert ws[..tail + 1] == ws[..tail] + [ws[tail]];
      }
      assert ws[..|lh|] == ws;
      ok := true;
    }

    /** One round of the loop in install_trans: copy a log slot to its home block. */
    method InstallBlock(tail: nat, recovering: bool)
      requires bc.Valid() && Quiet(g, lh, bc.abs) && tail < |lh|
      requires if recovering then Room(bc.abs.refs, 2) else Room(bc.abs.refs, 1) && Pinned(lh, bc.abs.refs, tail)
      modifies bc
      ensures bc.Valid()
      ensures bc.abs == Installed(old(bc.abs), g.start + 1 + tail, lh[tail], recovering)
      ensures bc.trace == old(bc.trace) + [Write(lh[tail], old(bc.abs).views[g.start + 1 + tail])]
    {
      hide Bcache.Valid, Quiet, Pinned, Room, GoodHead, Placed, HeadBlock, ApplyAll, InRange, LogWrites, Contents,
           WroteAll, Unpin, Slots, InstallWrites;
      ghost var a := bc.abs;
      var slot, b := g.start + 1 + tail, lh[tail];
      LogBlockFacts(g, lh, a, slot);
      HomeFacts(g, lh, a, tail);
      if recovering { RoomPlusOne(a.refs, slot, 1); RoomLess(a.refs); } else { PinnedFacts(lh, a.refs, tail, tail); }
      var lbuf := MustRead(slot);
      var dbuf := MustRead(b);
      CopyAndWrite(dbuf, b, lbuf, slot);
      if !recovering { bc.Bunpin(dbuf, b); }
      bc.Brelse(lbuf, slot);
      bc.Brelse(dbuf, b);
      assert bc.abs.held == a.held;
      assert bc.abs.refs == Installed(a, slot, b, recovering).refs;
    }

    /** install_trans */
    method InstallTrans(recovering: bool)
      requires bc.Valid() && Quiet(g, lh, bc.abs)
      requires if recovering then Room(bc.abs.refs, 2) else Room(bc.abs.refs, 1) && Pinned(lh, bc.abs.refs, 0)
      modifies bc
      ensures bc.Valid()
      ensures InRange(old(bc.abs).disk, InstallWrites(lh, Slots(g, old(bc.abs).views, |lh|)))
      ensures bc.abs == Released(WroteAll(old(bc.abs), InstallWrites(lh, Slots(g, old(bc.abs).views, |lh|))), lh,
              recovering)
      ensures bc.trace == old(bc.trace) + InstallWrites(lh, Slots(g, old(bc.abs).views, |lh|))
    {
      hide Bcache.Valid, Quiet, Pinned, Room, GoodHead, Placed, HeadBlock, ApplyAll, InRange, LogWrites, Contents,
           WroteAll, Unpin, Slots, Released, InstallWrites;
      ghost var a := bc.abs;
      ghost var ws := InstallStart(g, lh, a, recovering);
      for tail := 0 to |lh|
        invariant bc.Valid()
        invariant InRange(a.disk, ws[..tail]) && bc.abs == Released(WroteAll(a, ws[..tail]), lh[..tail], recovering)
        invariant bc.trace == old(bc.trace) + ws[..tail]
      {
        InstallRound(g, a, lh, tail, ws, recovering);
        InstallBlock(tail, recovering);
        assert ws[..tail + 1] == ws[..tail] + [ws[tail]];
      }
      assert ws[..|lh|] == ws && lh[..|lh|] == lh;
    }

    /** commit; false where bget panics: there are logged blocks and every buffer is referenced. */
    method Commit() returns (ok: bool)
      requires bc.Valid() && Quiet(g, lh, bc.abs) && Pinned(lh, bc.abs.refs, 0)
      modifies bc, this`lh
      ensures bc.Valid() && (ok <==> old(lh) == [] || Room(old(bc.abs).refs, 1))
      ensures var d, hb, data := old(bc.abs).disk, old(bc.abs).disk[g.start], Contents(old(bc.abs).views, old(lh));
              && InRange(d, CommitWrites(g, hb, old(lh), data))
              && (ok ==> bc.trace == old(bc.trace) + CommitWrites(g, hb, old(lh), data) && lh == [])
              && (ok ==> bc.abs == Released(WroteAll(old(bc.abs), CommitWrites(g, hb, old(lh), data)), old(lh), false))
      ensures !ok ==> bc.abs == old(bc.abs) && bc.trace == old(bc.trace) && lh == old(lh)
    {
      hide Bcache.Valid, Quiet, Pinned, Room, GoodHead, Placed, HeadBlock, ApplyAll, InRange, LogWrites, Contents,
           WroteAll, Unpin, Slots, InstallWrites, Released, Wrote, CommitWrites;
      ghost var a, lh0 := bc.abs, lh;
      ghost var data := CommitStart(g, lh, a);
      if |lh| > 0 {
        ok := WriteLog();
        if !ok {
          return;
        }
        AfterLog(g, lh, a, data);
        ghost var a1 := bc.abs;
        WriteHead();
        AfterHead(g, lh, a1, data);
        ghost var a2 := bc.abs;
        InstallTrans(false);
        AfterInstall(g, lh, a2, data);
        lh := [];
        WriteHead();
        CommitComposed(g, lh0, a, data);
      }
      ok := true;
    }

    /** read_head */
    method ReadHead()
      requires bc.Valid() && Quiet(g, [], bc.abs) && Room(bc.abs.refs, 1)
      requires 0 <= bc.abs.disk[g.start][0] <= LOGSIZE
      modifies bc, this`lh
      ensures bc.Valid() && bc.abs == old(bc.abs) && bc.trace == old(bc.trace)
      ensures lh == HeadOf(old(bc.abs).disk[g.start])
    {
      hide Bcache.Valid, Quiet, Pinned, Room, GoodHead, Placed, HeadBlock, ApplyAll, InRange, LogWrites, Contents,
           WroteAll, Unpin, Slots, InstallWrites, HeadOf;
      ghost var a := bc.abs;
      LogBlockFacts(g, [], a, g.start);
      var i := MustRead(g.start);
      var data := bc.Data(i, g.start);
      lh := [];
      var k := 0;
      while k < data[0]
        invariant 0 <= k <= data[0]
        invariant lh == data[1..1 + k]
        modifies this`lh
      {
        lh := lh + [data[1 + k]];
        k := k + 1;
      }
      HeadOfIs(data);
      bc.Brelse(i, g.start);
      assert bc.abs.refs == a.refs && bc.abs.held == a.held;
    }

    /** recover_from_log, on a cache in which no block is in use */
    method RecoverFromLog()
      requires bc.Valid() && Quiet(g, [], bc.abs) && bc.abs.held == map[] && Room(bc.abs.refs, 2)
               && Ready(g, bc.abs.disk)
      modifies bc, this`lh
      ensures bc.Valid() && lh == []
      ensures bc.trace == old(bc.trace) + RecoverWrites(g, old(bc.abs).disk)
      ensures bc.abs == WroteAll(old(bc.abs), RecoverWrites(g, old(bc.abs).disk))
    {
      hide Bcache.Valid, Quiet, Pinned, Room, GoodHead, Placed, HeadBlock, ApplyAll, InRange, LogWrites, Contents,
           WroteAll, Unpin, Slots, InstallWrites, HeadOf, RecoverWrites, Ready;
      ghost var a := bc.abs;
      RoomLess(a.refs);
      RecoverStart(g, a);
      ReadHead();
      ghost var lh0 := lh;
      InstallTrans(true);
      RecoverComposed(g, a, lh0);
      lh := [];
      WriteHead();
    }

    // ----- what the rest of the kernel calls -----

    /** initlog's recovery: a run of the system that nothing interrupts. */
    method Recover()
      requires Valid() && !up
      modifies this, bc
      ensures Valid() && up && !committing && Untouched(bc.abs)
      ensures bc.trace == old(bc.trace) + RecoverWrites(g, old(bc.abs).disk)
      ensures var steps := [Boot] + Writes(|RecoverWrites(g, old(bc.abs).disk)|) + [BootDone];
              Legal(g, old(Sys()), steps) && Sys() == Exec(g, old(Sys()), steps)
    {
      hide Bcache.Valid, Quiet, Room, Tracks, Inv, Legal, Exec, RecoverWrites, ApplyAll, WroteAll, Ready, Placed;
      ghost var s, a := Sys(), bc.abs;
      BootRun(g, s, base);
      BootStart(g, s, a, base);
      RecoverFromLog();
      BootEnd(g, s, a, bc.abs, base);
      up, returned := true, |groups|;
    }

    /** begin_op: false if the caller goes to sleep. */
    method BeginOp(p: Pid) returns (ok: bool)
      requires Valid() && up && p !in ops && p !in sleepers
      modifies this
      ensures Valid() && up && (ok <==> !Blocked(old(Sys())))
      ensures ok <==> !old(committing) && |old(lh)| + (old(outstanding) + 1) * MAXOPBLOCKS <= LOGSIZE
      ensures outstanding == old(outstanding) + if ok then 1 else 0
      ensures Enabled(g, old(Sys()), Begin(p)) && Sys() == Do(g, old(Sys()), Begin(p))
    {
      hide Bcache.Valid, Tracks, Inv;
      ghost var s := Sys();
      PhaseFacts(g, s, base, up, committing);
      InvStep(g, s, Begin(p), base);
      if committing {
        sleepers := sleepers + {p};
        return false;
      } else if |lh| + (outstanding + 1) * MAXOPBLOCKS > LOGSIZE {
        sleepers := sleepers + {p};
        return false;
      } else {
        outstanding := outstanding + 1;
        ops := ops[p := {}];
        return true;
      }
    }

    /** end_op, up to the release of the lock: true if the caller is to commit. */
    method EndOp(p: Pid) returns (last: bool)
      requires Valid() && p in ops
      modifies this
      ensures Valid() && up && (last <==> committing) && (last <==> old(ops).Keys == {p})
      ensures Enabled(g, old(Sys()), End(p)) && Sys() == Do(g, old(Sys()), End(p))
    {
      hide Bcache.Valid, Tracks, Inv;
      ghost var s := Sys();
      EndFacts(g, s, p, base, up, committing);
      InvStep(g, s, End(p), base);
      KeysWithout(ops, p);
      outstanding := outstanding - 1;
      assert !committing;                                 // panic: log.committing
      ops := ops - {p};
      if outstanding == 0 {
        committing := true;
      } else {
        sleepers := {};                                   // wakeup
      }
      return committing;
    }

    /** end_op, the rest of it: the commit and the wakeup; false where bget panics. */
    method CommitAndWake() returns (ok: bool)
      requires Valid() && committing && (forall i :: 0 <= i < |lh| ==> lh[i] !in bc.abs.held)
      modifies this, bc
      ensures ok <==> old(lh) == [] || |old(lh)| + |Others(old(bc.abs).refs, old(lh))| < NBUF
      ensures ok ==> Valid() && up && !committing
      ensures var s := old(Sys());
              s.phase.Committing? && s.phase.job == Job(s.disk, CommitWrites(g, s.disk[g.start], s.lh, CacheData(s)), 0)
      ensures var s := old(Sys());
              var steps := Writes(|s.phase.job.writes|) + [Return];
              Legal(g, s, steps) && (ok ==> Sys() == Exec(g, s, steps)
                                            && bc.trace == old(bc.trace) + s.phase.job.writes)
      ensures !ok ==> bc.trace == old(bc.trace) && bc.abs == old(bc.abs) && lh == old(lh)
    {
      hide Bcache.Valid, Quiet, Room, Tracks, Inv, Legal, Exec, CommitWrites, ApplyAll, WroteAll, Contents, Others,
           Held;
      ghost var s, a := Sys(), bc.abs;
      CommitStarts(g, s, a, base, up);
      CommitRun(g, s, base);
      PinnedCount(g, a.disk, lh, a.refs);
      ok := Commit();
      if ok {
        CommitEnds(g, s, a, base, s.phase.job.writes);
        groups := Finished(s).groups;
        returned := |groups|;
        logged, sleepers := map[], {};                    // wakeup
        committing := false;
      }
    }

    /** log_write: record the block for this transaction, and pin it when it is new. */
    method LogWrite(p: Pid, i: nat, b: nat) returns (r: LogResult)
      requires Valid() && bc.Owns(i, b)
      requires outstanding > 0 ==> p in ops && (b in ops[p] || |ops[p]| < MAXOPBLOCKS)
      modifies this, bc
      ensures Valid() && up == old(up) && b < |old(bc.abs).views| && bc.trace == old(bc.trace)
      ensures r == (if |old(lh)| >= LOGSIZE || |old(lh)| >= g.size - 1 then TooBig
                    else if old(outstanding) < 1 then OutsideTransaction else Recorded)
      ensures bc.abs == if r.Recorded? && b !in old(lh) then Pin(old(bc.abs), b) else old(bc.abs)
      ensures var s, step := old(Sys()), Step.LogWrite(p, b, old(bc.abs).views[b]);
              if r.Recorded? then Enabled(g, s, step) && Sys() == Do(g, s, step) else Sys() == s
      ensures r.Recorded? ==> lh == Absorbed(old(lh), b)
    {
      hide Bcache.Valid, Tracks, Inv;
      ghost var s, a := Sys(), bc.abs;
      LogWriteFacts(g, s, a, base, p, b, up, committing);
      if |lh| >= LOGSIZE || |lh| >= g.size - 1 { return TooBig; }
      if outstanding < 1 { return OutsideTransaction; }
      InvStep(g, s, Step.LogWrite(p, b, a.views[b]), base);
      var k := 0;
      while k < |lh|
        invariant 0 <= k <= |lh| && b !in lh[..k]
        invariant unchanged(this) && unchanged(bc)
      {
        if lh[k] == b { break; }  // log absorption
        k := k + 1;
      }
      logged := logged[b := a.views[b]];
      ops := ops[p := ops[p] + {b}];
      assert ops.Keys == old(ops).Keys;
      if k == |lh| {
        TracksNew(g, a, lh, old(logged), b);
        lh := lh + [b];
        bc.Bpin(i, b);
      } else {
        assert b in lh;
        TracksAgain(g, a, lh, old(logged), b);
        lh := lh[k := b];
        assert lh == old(lh);
      }
      r := Recorded;
    }

    /** bread by a process: a buffer it then holds, or None where bget panics. */
    method Bread(b: nat) returns (r: Option<nat>)
      requires Valid() && up && Home(g, bc.abs.disk, b) && b !in bc.abs.held
      modifies bc
      ensures Valid() && Sys() == old(Sys()) && bc.trace == old(bc.trace)
      ensures r.None? <==> old(bc.abs).refs[b] == 0 && |Held(old(bc.abs).refs)| >= NBUF
      ensures if r.Some? then bc.abs == Referenced(old(bc.abs), b, r.value) else bc.abs == old(bc.abs)
    {
      hide Bcache.Valid, Tracks, Inv, Held;
      TracksShape(g, bc.abs, lh, logged);
      ghost var a := bc.abs;
      r := bc.Bread(b);
      if r.Some? { TracksRead(g, a, lh, logged, b, r.value); }
    }

    /** The holder of a buffer changes its data. */
    method Modify(i: nat, b: nat, data: Block)
      requires Valid() && up && bc.Owns(i, b)
      modifies bc
      ensures Valid() && Sys() == old(Sys()) && b < |old(bc.abs).views|
      ensures bc.abs == old(bc.abs).(views := old(bc.abs).views[b := data]) && bc.trace == old(bc.trace)
    {
      hide Bcache.Valid, Tracks, Inv;
      TracksSet(g, bc.abs, lh, logged, b, data);
      bc.SetData(i, b, data);
    }

    /** brelse by a process that has logged what it changed. */
    method Brelse(i: nat, b: nat)
      requires Valid() && up && bc.Owns(i, b) && b < |bc.abs.views| == |bc.abs.disk|
      requires bc.abs.views[b] == if b in lh && b in logged then logged[b] else bc.abs.disk[b]
      modifies bc
      ensures Valid() && Sys() == old(Sys()) && bc.trace == old(bc.trace)
      ensures b < |old(bc.abs).refs| && old(bc.abs).refs[b] > 0
      ensures bc.abs == old(bc.abs).(refs := old(bc.abs).refs[b := old(bc.abs).refs[b] - 1],
              held := old(bc.abs).held - {b})
    {
      hide Bcache.Valid, Tracks, Inv;
      TracksRelease(g, bc.abs, lh, logged, b);
      bc.Brelse(i, b);
    }
  }
}
