/**
 The buffer cache as the log uses it: what commit and recovery do to it, block
 write by block write.
 */
module LogCache {
  import opened Disk
  import opened Bio
  import opened LogSpec
  import Sets

  /** What log_write does to the list of logged blocks. */
  function Absorbed(lh: seq<int>, b: int): seq<int> {
    if b in lh then lh else lh + [b]
  }

  function Wrote(a: Cache, b: nat, data: Block): Cache
    requires b < |a.disk| && b < |a.views|
  {
    a.(disk := a.disk[b := data], views := a.views[b := data])
  }

  function WroteAll(a: Cache, ws: seq<Write>): Cache
    requires |a.views| == |a.disk| && InRange(a.disk, ws)
  {
    a.(disk := ApplyAll(a.disk, ws), views := ApplyAll(a.views, ws))
  }

  /** Nobody references a log block or holds a block of the transaction; the log's blocks fit on the disk,
      which has what the cache has for them. */
  ghost predicate Quiet(g: Geometry, lh: seq<int>, a: Cache) {
    && |a.views| == |a.refs| == |a.disk| && (forall b :: b in a.held ==> !InLog(g, b) && b !in lh)
    && Placed(g, a.disk) && GoodHead(g, a.disk, lh)
    && (forall b :: InLog(g, b) ==> a.refs[b] == 0 && a.views[b] == a.disk[b])
  }

  /** Every logged block from position t on is pinned in the cache. */
  ghost predicate Pinned(lh: seq<int>, refs: seq<nat>, t: nat) {
    forall i :: t <= i < |lh| ==> 0 <= lh[i] < |refs| && refs[lh[i]] > 0
  }

  /** The contents the cache holds for the logged blocks. */
  function Contents(views: Image, lh: seq<int>): (data: seq<Block>)
    requires forall i :: 0 <= i < |lh| ==> 0 <= lh[i] < |views|
    ensures |data| == |lh|
  {
    seq(|lh|, i requires 0 <= i < |lh| => views[lh[i]])
  }

  /** One pin fewer on every block of lh. */
  function Unpin(refs: seq<nat>, lh: seq<int>): (r: seq<nat>)
    ensures |r| == |refs|
  {
    seq(|refs|, b requires 0 <= b < |refs| => if b in lh && refs[b] > 0 then refs[b] - 1 else refs[b])
  }

  lemma UnpinStep(refs: seq<nat>, lh: seq<int>, t: nat)
    requires t < |lh| && 0 <= lh[t] < |refs| && refs[lh[t]] > 0
    requires forall i, j :: 0 <= i < j < |lh| ==> lh[i] != lh[j]
    ensures Unpin(refs, lh[..t])[lh[t]] == refs[lh[t]]
    ensures Unpin(refs, lh[..t + 1]) == Unpin(refs, lh[..t])[lh[t] := refs[lh[t]] - 1]
  {
    assert lh[..t + 1] == lh[..t] + [lh[t]];
  }

  /** Room: at least n buffers could be recycled. */
  ghost predicate Room(refs: seq<nat>, n: nat) {
    |Held(refs)| + n <= NBUF
  }

  lemma RoomIs(refs: seq<nat>)
    ensures Room(refs, 1) <==> |Held(refs)| < NBUF
  {
  }

  lemma RoomShrinks(refs: seq<nat>, refs': seq<nat>, n: nat)
    requires |refs'| == |refs| && (forall b :: 0 <= b < |refs| ==> refs'[b] <= refs[b]) && Room(refs, n)
    ensures Room(refs', n)
  {
    Sets.SubsetSize(Held(refs'), Held(refs));
  }

  lemma RoomPlusOne(refs: seq<nat>, b: nat, n: nat)
    requires b < |refs| && Room(refs, n + 1)
    ensures Room(refs[b := refs[b] + 1], n)
  {
    var refs' := refs[b := refs[b] + 1];
    assert Held(refs') <= Held(refs) + {b};
    Sets.SubsetSize(Held(refs'), Held(refs) + {b});
  }

  lemma LogBlockFacts(g: Geometry, lh: seq<int>, a: Cache, b: nat)
    requires Quiet(g, lh, a) && g.start <= b <= g.start + |lh|
    ensures b < |a.disk| == |a.views| == |a.refs| && a.refs[b] == 0 && a.views[b] == a.disk[b] && b !in a.held
    ensures |lh| <= LOGSIZE
  {
    assert InLog(g, b);
  }

  lemma PinnedFacts(lh: seq<int>, refs: seq<nat>, t: nat, i: nat)
    requires Pinned(lh, refs, t) && t <= i < |lh|
    ensures 0 <= lh[i] < |refs| && refs[lh[i]] > 0
  {
  }

  lemma HomeFacts(g: Geometry, lh: seq<int>, a: Cache, i: nat)
    requires Quiet(g, lh, a) && i < |lh|
    ensures 0 <= lh[i] < |a.disk| && (lh[i] < g.start || g.start + |lh| < lh[i]) && lh[i] !in a.held
  {
  }

  /** The log slots' contents, as the cache has them. */
  function Slots(g: Geometry, views: Image, n: nat): (data: seq<Block>)
    requires g.start + n < |views|
    ensures |data| == n
  {
    views[g.start + 1..g.start + 1 + n]
  }

  /** A home block gets its slot's contents; outside recovery it also loses its pin. */
  function Installed(a: Cache, slot: nat, b: nat, recovering: bool): Cache
    requires slot < |a.views| && b < |a.disk| && b < |a.views| && b < |a.refs|
    requires recovering || a.refs[b] > 0
  {
    var w := Wrote(a, b, a.views[slot]);
    if recovering then w else w.(refs := a.refs[b := a.refs[b] - 1])
  }

  function Released(a: Cache, lh: seq<int>, recovering: bool): Cache {
    if recovering then a else a.(refs := Unpin(a.refs, lh))
  }

  lemma RoomLess(refs: seq<nat>)
    requires Room(refs, 2)
    ensures Room(refs, 1)
  {
  }

  // The cache after each stage of a commit.
  lemma CommitStart(g: Geometry, lh: seq<int>, a: Cache) returns (data: seq<Block>)
    requires Quiet(g, lh, a)
    ensures |a.views| == |a.disk| && g.start < |a.disk| && |lh| <= LOGSIZE
    ensures (forall i :: 0 <= i < |lh| ==> 0 <= lh[i] < |a.views|) && data == Contents(a.views, lh)
    ensures InRange(a.disk, LogWrites(g, data)) && InRange(a.disk, InstallWrites(lh, data))
    ensures InRange(a.disk, CommitWrites(g, a.disk[g.start], lh, data))
    ensures lh == [] ==> CommitWrites(g, a.disk[g.start], lh, data) == [] && Released(WroteAll(a, []), lh, false) == a
  {
    data := Contents(a.views, lh);
    if lh == [] { assert Unpin(a.refs, lh) == a.refs; }
  }

  lemma AfterLog(g: Geometry, lh: seq<int>, a: Cache, data: seq<Block>)
    requires Quiet(g, lh, a) && |data| == |lh| && InRange(a.disk, LogWrites(g, data))
    ensures var a1 := WroteAll(a, LogWrites(g, data));
            Quiet(g, lh, a1) && a1.refs == a.refs && a1.disk[g.start] == a.disk[g.start]
              && Slots(g, a1.views, |lh|) == data
  {
    WroteQuiet(g, lh, a, LogWrites(g, data));
    SlotsFilled(g, a.views, data);
    SlotsFilled(g, a.disk, data);
  }

  lemma AfterHead(g: Geometry, lh: seq<int>, a1: Cache, data: seq<Block>)
    requires Quiet(g, lh, a1) && Slots(g, a1.views, |lh|) == data
    ensures var a2 := Wrote(a1, g.start, HeadBlock(a1.disk[g.start], lh));
            Quiet(g, lh, a2) && a2.refs == a1.refs && Slots(g, a2.views, |lh|) == data
            && a2.disk[g.start] == HeadBlock(a1.disk[g.start], lh)
  {
    var a2 := Wrote(a1, g.start, HeadBlock(a1.disk[g.start], lh));
    assert Slots(g, a2.views, |lh|) == Slots(g, a1.views, |lh|);
  }

  lemma AfterInstall(g: Geometry, lh: seq<int>, a2: Cache, data: seq<Block>)
    requires Quiet(g, lh, a2) && Room(a2.refs, 1) && |data| == |lh| && (forall i :: 0 <= i < |lh| ==> lh[i] >= 0)
    requires InRange(a2.disk, InstallWrites(lh, data))
    ensures var a3 := Released(WroteAll(a2, InstallWrites(lh, data)), lh, false);
            Quiet(g, [], a3) && Room(a3.refs, 1) && a3.disk[g.start] == a2.disk[g.start]
  {
    var ws := InstallWrites(lh, data);
    WroteQuiet(g, lh, a2, ws);
    RoomShrinks(a2.refs, Unpin(a2.refs, lh), 1);
    ApplyAllFrame(a2.disk, ws, g.start);
  }

  lemma CommitComposed(g: Geometry, lh: seq<int>, a: Cache, data: seq<Block>)
    requires Quiet(g, lh, a) && lh != [] && |data| == |lh| && |lh| <= LOGSIZE
             && (forall i :: 0 <= i < |lh| ==> lh[i] >= 0)
    requires InRange(a.disk, LogWrites(g, data)) && InRange(a.disk, InstallWrites(lh, data))
    requires InRange(a.disk, CommitWrites(g, a.disk[g.start], lh, data))
    ensures var hb := HeadBlock(a.disk[g.start], lh);
            var a1 := WroteAll(a, LogWrites(g, data));
            var a2 := Wrote(a1, g.start, hb);
            var a3 := Released(WroteAll(a2, InstallWrites(lh, data)), lh, false);
            && Wrote(a3, g.start, HeadBlock(hb, []))
               == Released(WroteAll(a, CommitWrites(g, a.disk[g.start], lh, data)), lh, false)
            && CommitWrites(g, a.disk[g.start], lh, data)
               == LogWrites(g, data) + [Write(g.start, hb)] + InstallWrites(lh,
                 data) + [Write(g.start, HeadBlock(hb, []))]
  {
    hide GoodHead, LogWrites, InstallWrites, HeadBlock, Unpin, ApplyAll;
    var hb := HeadBlock(a.disk[g.start], lh);
    FourStages(a.disk, LogWrites(g, data), Write(g.start, hb), InstallWrites(lh, data),
      Write(g.start, HeadBlock(hb, [])));
    FourStages(a.views, LogWrites(g, data), Write(g.start, hb), InstallWrites(lh, data),
      Write(g.start, HeadBlock(hb, [])));
  }

  lemma FourStages(d: Image, us: seq<Write>, w: Write, vs: seq<Write>, z: Write)
    requires InRange(d, us) && InRange(d, vs) && w.bno < |d| && z.bno < |d|
    ensures InRange(d, us + [w] + vs + [z])
    ensures ApplyAll(d, us + [w] + vs + [z]) == ApplyAll(ApplyAll(d, us)[w.bno := w.data], vs)[z.bno := z.data]
  {
    hide ApplyAll, InRange;
    ApplyAllPush(d, us, w);
    ApplyAllAppend(d, us + [w], vs);
    ApplyAllPush(d, us + [w] + vs, z);
  }

  lemma HeadOfIs(b: Block)
    requires 0 <= b[0] <= LOGSIZE
    ensures HeadOf(b) == b[1..1 + b[0]]
  {
  }

  lemma RecoverStart(g: Geometry, a: Cache)
    requires Quiet(g, [], a) && Ready(g, a.disk) && a.held == map[]
    ensures g.start < |a.disk| && 0 <= a.disk[g.start][0] <= LOGSIZE && Quiet(g, HeadOf(a.disk[g.start]), a)
  {
  }

  lemma RecoverComposed(g: Geometry, a: Cache, lh: seq<int>)
    requires Quiet(g, lh, a) && Ready(g, a.disk) && lh == HeadOf(a.disk[g.start]) && Room(a.refs, 1)
    ensures (forall i :: 0 <= i < |lh| ==> lh[i] >= 0) && |a.views| == |a.disk| && g.start + |lh| < |a.views|
    ensures var ins := InstallWrites(lh, Slots(g, a.views, |lh|));
            && InRange(a.disk, ins)
            && var p := Released(WroteAll(a, ins), lh, true);
               && Quiet(g, [], p) && Room(p.refs, 1) && p.disk[g.start] == a.disk[g.start]
               && RecoverWrites(g, a.disk) == ins + [Write(g.start, HeadBlock(p.disk[g.start], []))]
               && WroteAll(a, RecoverWrites(g, a.disk)) == Wrote(p, g.start, HeadBlock(p.disk[g.start], []))
  {
    var ins := InstallWrites(lh, Slots(g, a.views, |lh|));
    assert Slots(g, a.views, |lh|) == LoggedData(g, a.disk, |lh|) by {
      forall i | 0 <= i < |lh| ensures Slots(g, a.views, |lh|)[i] == LoggedData(g, a.disk, |lh|)[i] {
        assert InLog(g, g.start + 1 + i);
      }
    }
    RecoverComposed1(g, a, lh, ins);
  }

  lemma RecoverComposed1(g: Geometry, a: Cache, lh: seq<int>, ins: seq<Write>)
    requires Quiet(g, lh, a) && InRange(a.disk, ins) && forall i :: 0 <= i < |ins| ==> Home(g, a.disk, ins[i].bno)
    ensures WroteAll(a, ins).disk[g.start] == a.disk[g.start] && Quiet(g, [], WroteAll(a, ins))
    ensures var w := Write(g.start, HeadBlock(a.disk[g.start], []));
            InRange(a.disk, ins + [w]) && WroteAll(a, ins + [w]) == Wrote(WroteAll(a, ins), g.start,
              HeadBlock(a.disk[g.start], []))
  {
    WroteQuiet(g, lh, a, ins);
    ApplyAllFrame(a.disk, ins, g.start);
    ApplyAllPush(a.disk, ins, Write(g.start, HeadBlock(a.disk[g.start], [])));
    ApplyAllPush(a.views, ins, Write(g.start, HeadBlock(a.disk[g.start], [])));
  }

  function Pin(a: Cache, b: nat): Cache
    requires b < |a.refs|
  {
    a.(refs := a.refs[b := a.refs[b] + 1])
  }

  lemma InstallStart(g: Geometry, lh: seq<int>, a: Cache, recovering: bool) returns (ws: seq<Write>)
    requires Quiet(g, lh, a)
    ensures |a.views| == |a.disk| && g.start + |lh| < |a.views|
    ensures (forall i :: 0 <= i < |lh| ==> lh[i] >= 0) && ws == InstallWrites(lh, Slots(g, a.views, |lh|))
    ensures |ws| == |lh| && ws[..0] == [] && lh[..0] == [] && InRange(a.disk, ws) && InRange(a.disk, [])
    ensures Released(WroteAll(a, []), [], recovering) == a
  {
    ws := InstallWrites(lh, Slots(g, a.views, |lh|));
    assert Unpin(a.refs, []) == a.refs;
  }

  lemma InstallRound(g: Geometry, a: Cache, lh: seq<int>, t: nat, ws: seq<Write>, recovering: bool)
    requires Quiet(g, lh, a) && t < |lh|
    requires (forall i :: 0 <= i < |lh| ==> lh[i] >= 0) && ws == InstallWrites(lh, Slots(g, a.views, |lh|))
    requires if recovering then Room(a.refs, 2) else Room(a.refs, 1) && Pinned(lh, a.refs, 0)
    ensures InRange(a.disk, ws[..t]) && InRange(a.disk, ws[..t + 1]) && 0 <= lh[t] < |a.disk|
    ensures ws[t] == Write(lh[t], a.views[g.start + 1 + t])
    ensures var p := Released(WroteAll(a, ws[..t]), lh[..t], recovering);
            && Quiet(g, lh, p) && p.views[g.start + 1 + t] == a.views[g.start + 1 + t]
            && (if recovering then Room(p.refs, 2) else Room(p.refs, 1) && Pinned(lh, p.refs, t))
            && (recovering || p.refs[lh[t]] > 0)
            && Released(WroteAll(a, ws[..t + 1]), lh[..t + 1], recovering) == Installed(p, g.start + 1 + t, lh[t],
               recovering)
  {
    hide Room, Pinned, Unpin, ApplyAll, Held, InstallWrites;
    InstallFrame(g, a, lh, t, ws);
    if !recovering {
      PinnedRest(g, lh, a, t);
    }
  }

  lemma InstallFrame(g: Geometry, a: Cache, lh: seq<int>, t: nat, ws: seq<Write>)
    requires Quiet(g, lh, a) && t < |lh|
    requires (forall i :: 0 <= i < |lh| ==> lh[i] >= 0) && ws == InstallWrites(lh, Slots(g, a.views, |lh|))
    ensures InRange(a.disk, ws[..t]) && InRange(a.disk, ws[..t + 1]) && ws[t] == Write(lh[t], a.views[g.start + 1 + t])
    ensures Quiet(g, lh, WroteAll(a, ws[..t]))
    ensures WroteAll(a, ws[..t]).views[g.start + 1 + t] == a.views[g.start + 1 + t]
    ensures WroteAll(a, ws[..t + 1]) == Wrote(WroteAll(a, ws[..t]), lh[t], a.views[g.start + 1 + t])
  {
    ApplyAllFrame(a.views, ws[..t], g.start + 1 + t);
    ApplyAllStep(a.disk, ws, t);
    ApplyAllStep(a.views, ws, t);
    WroteQuiet(g, lh, a, ws[..t]);
  }

  lemma PinnedRest(g: Geometry, lh: seq<int>, a: Cache, t: nat)
    requires Quiet(g, lh, a) && Pinned(lh, a.refs, 0) && Room(a.refs, 1) && t < |lh|
    ensures var r := Unpin(a.refs, lh[..t]);
            && Pinned(lh, r, t) && Room(r, 1) && 0 <= lh[t] < |r| && r[lh[t]] > 0
            && (forall b :: InLog(g, b) ==> r[b] == 0)
            && Unpin(a.refs, lh[..t + 1]) == r[lh[t] := r[lh[t]] - 1]
  {
    UnpinStep(a.refs, lh, t);
    RoomShrinks(a.refs, Unpin(a.refs, lh[..t]), 1);
  }

  lemma SlotStart(g: Geometry, lh: seq<int>, a: Cache) returns (ws: seq<Write>)
    requires Quiet(g, lh, a)
    ensures ws == LogWrites(g, Contents(a.views, lh))
    ensures |a.views| == |a.disk| && |ws| == |lh| && ws[..0] == [] && InRange(a.disk, ws) && InRange(a.disk, [])
            && WroteAll(a, []) == a
  {
    ws := LogWrites(g, Contents(a.views, lh));
  }

  lemma SlotRound(g: Geometry, a: Cache, lh: seq<int>, t: nat, ws: seq<Write>)
    requires Quiet(g, lh, a) && t < |lh| && ws == LogWrites(g, Contents(a.views, lh)) && InRange(a.disk, ws[..t])
    ensures |ws| == |lh| && InRange(a.disk, ws[..t + 1]) && 0 <= lh[t] < |a.views|
    ensures ws[t] == Write(g.start + 1 + t, a.views[lh[t]])
    ensures Quiet(g, lh, WroteAll(a, ws[..t])) && WroteAll(a, ws[..t]).refs == a.refs
    ensures WroteAll(a, ws[..t]).views[lh[t]] == a.views[lh[t]]
    ensures g.start + 1 + t < |a.disk|
    ensures WroteAll(a, ws[..t + 1]) == Wrote(WroteAll(a, ws[..t]), g.start + 1 + t, a.views[lh[t]])
  {
    ApplyAllFrame(a.views, ws[..t], lh[t]);
    ApplyAllStep(a.disk, ws, t);
    ApplyAllStep(a.views, ws, t);
    WroteQuiet(g, lh, a, ws[..t]);
  }

  lemma {:induction false} WroteQuiet(g: Geometry, lh: seq<int>, a: Cache, ws: seq<Write>)
    requires Quiet(g, lh, a) && InRange(a.disk, ws)
    ensures Quiet(g, lh, WroteAll(a, ws))
  {
    if ws != [] {
      WroteQuiet(g, lh, a, ws[..|ws| - 1]);
    }
  }
}
