/**
 The on-disk redo log: a header block naming home blocks, followed by their
 logged contents. This module gives the block writes that commit and recovery
 issue, and shows what every crash in the middle of them leaves behind.
 */
module LogSpec {
  import opened Disk

  const MAXOPBLOCKS := 10
  const LOGSIZE := MAXOPBLOCKS * 3

  /** The log occupies blocks start .. start + size - 1; the header is block start. */
  datatype Geometry = Geometry(start: nat, size: nat)

  predicate InLog(g: Geometry, b: int) {
    g.start <= b < g.start + g.size
  }

  predicate Home(g: Geometry, d: Image, b: int) {
    0 <= b < |d| && !InLog(g, b)
  }

  predicate Placed(g: Geometry, d: Image) {
    0 < g.size && g.start + g.size <= |d|
  }

  /** A list of block numbers that commit may write to the header. */
  ghost predicate GoodHead(g: Geometry, d: Image, lh: seq<int>) {
    && |lh| <= LOGSIZE && |lh| < g.size
    && (forall i :: 0 <= i < |lh| ==> Home(g, d, lh[i]))
    && (forall i, j :: 0 <= i < j < |lh| ==> lh[i] != lh[j])
  }

  /** read_head and write_head: word 0 is the count, the block numbers follow. */
  function HeadOf(b: Block): seq<int>
    requires 0 <= b[0] <= LOGSIZE
  {
    b[1..1 + b[0]]
  }

  function HeadBlock(b: Block, lh: seq<int>): Block
    requires |lh| <= LOGSIZE
  {
    [|lh|] + lh + b[1 + |lh|..]
  }

  lemma HeadRoundTrip(b: Block, lh: seq<int>)
    requires |lh| <= LOGSIZE
    ensures HeadBlock(b, lh)[0] == |lh| && HeadOf(HeadBlock(b, lh)) == lh
  {
  }

  ghost predicate Ready(g: Geometry, d: Image) {
    && Placed(g, d)
    && 0 <= d[g.start][0] <= LOGSIZE
    && GoodHead(g, d, HeadOf(d[g.start]))
  }

  function Position(lh: seq<int>, b: int): (i: nat)
    requires b in lh
    ensures i < |lh| && lh[i] == b
  {
    if lh[0] == b then 0 else 1 + Position(lh[1..], b)
  }

  /** The contents block b will have once recovery has run. */
  ghost function View(g: Geometry, d: Image, b: int): Block
    requires Ready(g, d) && Home(g, d, b)
  {
    d[ReadFrom(g, d, b)]
  }

  /** Recovery from disk d yields file-system contents fs. */
  ghost predicate Recovers(g: Geometry, d: Image, fs: Image) {
    && Ready(g, d) && |d| == |fs|
    && forall b :: Home(g, d, b) ==> View(g, d, b) == fs[b]
  }

  /** As Recovers, with nothing left to recover: home blocks already hold fs. */
  ghost predicate Settled(g: Geometry, d: Image, fs: Image) {
    && Placed(g, d) && |d| == |fs| && d[g.start][0] == 0
    && forall b :: Home(g, d, b) ==> d[b] == fs[b]
  }

  lemma SettledRecovers(g: Geometry, d: Image, fs: Image)
    requires Settled(g, d, fs)
    ensures Recovers(g, d, fs)
  {
  }

  /** The blocks one transaction changes. */
  type Group = map<int, Block>

  function GroupOf(lh: seq<int>, data: seq<Block>): Group
    requires |lh| == |data|
  {
    map b | b in lh :: data[Position(lh, b)]
  }

  function ApplyGroup(fs: Image, grp: Group): (r: Image)
    ensures |r| == |fs|
  {
    seq(|fs|, b requires 0 <= b < |fs| => if b in grp then grp[b] else fs[b])
  }

  function ApplyGroups(fs: Image, groups: seq<Group>): (r: Image)
    ensures |r| == |fs|
  {
    if groups == [] then fs
    else ApplyGroup(ApplyGroups(fs, groups[..|groups| - 1]), groups[|groups| - 1])
  }

  // The writes of write_log and of install_trans.
  function LogWrites(g: Geometry, data: seq<Block>): (ws: seq<Write>)
    ensures |ws| == |data|
  {
    seq(|data|, i requires 0 <= i < |data| => Write(g.start + 1 + i, data[i]))
  }

  function InstallWrites(lh: seq<int>, data: seq<Block>): (ws: seq<Write>)
    requires |lh| == |data| && forall i :: 0 <= i < |lh| ==> lh[i] >= 0
    ensures |ws| == |lh|
  {
    seq(|lh|, i requires 0 <= i < |lh| => Write(lh[i], data[i]))
  }

  /** Everything commit writes; hb is the header block it starts from. */
  function CommitWrites(g: Geometry, hb: Block, lh: seq<int>, data: seq<Block>): (ws: seq<Write>)
    requires |lh| == |data| && |lh| <= LOGSIZE && forall i :: 0 <= i < |lh| ==> lh[i] >= 0
    ensures |ws| == if lh == [] then 0 else 2 * |lh| + 2
  {
    if lh == [] then [] else
      LogWrites(g, data) + [Write(g.start, HeadBlock(hb, lh))]
      + InstallWrites(lh, data) + [Write(g.start, HeadBlock(HeadBlock(hb, lh), []))]
  }

  ghost function LoggedData(g: Geometry, d: Image, n: nat): (r: seq<Block>)
    requires g.start + n < |d|
    ensures |r| == n
  {
    d[g.start + 1..g.start + 1 + n]
  }

  /** Everything recovery writes. */
  ghost function RecoverWrites(g: Geometry, d: Image): (ws: seq<Write>)
    requires Ready(g, d)
    ensures InRange(d, ws)
  {
    var lh := HeadOf(d[g.start]);
    InstallWrites(lh, LoggedData(g, d, |lh|)) + [Write(g.start, HeadBlock(d[g.start], []))]
  }

  /** The disk when the power fails after k of the writes ws: exactly those k are
      there, and the next one may have left its block in any state. Only a write
      of the header block is taken to be atomic. */
  ghost predicate CrashImage(g: Geometry, d: Image, ws: seq<Write>, k: nat, c: Image)
    requires InRange(d, ws)
  {
    && k <= |ws|
    && (c == ApplyAll(d, ws[..k])
        || (k < |ws| && ws[k].bno != g.start && exists junk: Block :: c == Torn(ApplyAll(d, ws[..k]), ws[k].bno, junk)))
  }

  function Torn(d: Image, b: nat, junk: Block): Image
    requires b < |d|
  {
    d[b := junk]
  }

  // ----- the phases of a commit -----

  /** Filling log slots while the header is empty changes nothing that recovery sees. */
  lemma LogPhase(g: Geometry, d: Image, ws: seq<Write>, fs: Image)
    requires Settled(g, d, fs) && InRange(d, ws)
    requires forall i :: 0 <= i < |ws| ==> g.start < ws[i].bno < g.start + g.size
    ensures Settled(g, ApplyAll(d, ws), fs)
  {
    ApplyAllFrame(d, ws, g.start);
    forall b | Home(g, d, b) ensures ApplyAll(d, ws)[b] == fs[b] {
      ApplyAllFrame(d, ws, b);
    }
  }

  lemma LoggedIsHome(g: Geometry, d: Image, b: int)
    requires Ready(g, d) && b in HeadOf(d[g.start])
    ensures Home(g, d, b)
  {
  }

  lemma SlotInLog(g: Geometry, d: Image, b: int)
    requires Ready(g, d) && b in HeadOf(d[g.start])
    ensures g.start < g.start + 1 + Position(HeadOf(d[g.start]), b) < g.start + g.size <= |d|
  {
  }

  /** Two disks that agree on the header and wherever View reads recover alike. */
  lemma SameReads(g: Geometry, d: Image, e: Image, fs: Image)
    requires Recovers(g, d, fs) && |e| == |d| && e[g.start] == d[g.start]
    requires forall b :: Home(g, d, b) ==> 0 <= ReadFrom(g, d, b) < |d| && e[ReadFrom(g, d, b)] == d[ReadFrom(g, d, b)]
    ensures Recovers(g, e, fs)
  {
    assert GoodHead(g, e, HeadOf(e[g.start])) by {
      assert forall b :: Home(g, d, b) <==> Home(g, e, b);
    }
    forall b | Home(g, e, b) ensures View(g, e, b) == fs[b] {
      assert Home(g, d, b);
      assert View(g, d, b) == fs[b];
    }
  }

  /** Writing any of the logged home blocks changes nothing that recovery sees. */
  lemma InstallPhase(g: Geometry, d: Image, ws: seq<Write>, fs: Image)
    requires Recovers(g, d, fs) && InRange(d, ws)
    requires forall i :: 0 <= i < |ws| ==> ws[i].bno in HeadOf(d[g.start])
    ensures Recovers(g, ApplyAll(d, ws), fs) && ApplyAll(d, ws)[g.start] == d[g.start]
  {
    forall i | 0 <= i < |ws| ensures Home(g, d, ws[i].bno) {
      LoggedIsHome(g, d, ws[i].bno);
    }
    ApplyAllFrame(d, ws, g.start);
    forall b | Home(g, d, b)
      ensures 0 <= ReadFrom(g, d, b) < |d| && ApplyAll(d, ws)[ReadFrom(g, d, b)] == d[ReadFrom(g, d, b)]
    {
      NotInstalled(g, d, ws, b);
      ApplyAllFrame(d, ws, ReadFrom(g, d, b));
    }
    SameReads(g, d, ApplyAll(d, ws), fs);
  }

  lemma NotInstalled(g: Geometry, d: Image, ws: seq<Write>, b: int)
    requires Ready(g, d) && Home(g, d, b)
    requires forall i :: 0 <= i < |ws| ==> Home(g, d, ws[i].bno) && ws[i].bno in HeadOf(d[g.start])
    ensures 0 <= ReadFrom(g, d, b) < |d|
    ensures forall i :: 0 <= i < |ws| ==> ws[i].bno != ReadFrom(g, d, b)
  {
    if b in HeadOf(d[g.start]) { SlotInLog(g, d, b); }
  }

  /** The disk block that View reads. */
  function ReadFrom(g: Geometry, d: Image, b: int): int
    requires g.start < |d| && 0 <= d[g.start][0] <= LOGSIZE
  {
    var lh := HeadOf(d[g.start]);
    if b in lh then g.start + 1 + Position(lh, b) else b
  }

  lemma SlotsFilled(g: Geometry, d: Image, data: seq<Block>)
    requires Placed(g, d) && |data| < g.size
    ensures InRange(d, LogWrites(g, data))
    ensures var e := ApplyAll(d, LogWrites(g, data));
            && LoggedData(g, e, |data|) == data && e[g.start] == d[g.start]
            && forall b :: Home(g, d, b) ==> e[b] == d[b]
  {
    var ws := LogWrites(g, data);
    var e := ApplyAll(d, ws);
    ApplyAllFrame(d, ws, g.start);
    forall i | 0 <= i < |data| ensures e[g.start + 1 + i] == data[i] {
      ApplyAllHit(d, ws, i);
      assert ws[i].bno == g.start + 1 + i;
    }
    forall b | Home(g, d, b) ensures e[b] == d[b] {
      ApplyAllFrame(d, ws, b);
    }
  }

  /** A disk whose header names the logged blocks recovers to the group's contents. */
  lemma CommittedView(g: Geometry, h: Image, lh: seq<int>, data: seq<Block>, fs: Image)
    requires Ready(g, h) && HeadOf(h[g.start]) == lh && |lh| == |data| && |fs| == |h|
    requires LoggedData(g, h, |lh|) == data && forall b :: Home(g, h, b) ==> h[b] == fs[b]
    ensures Recovers(g, h, ApplyGroup(fs, GroupOf(lh, data)))
  {
    forall b | Home(g, h, b) ensures View(g, h, b) == ApplyGroup(fs, GroupOf(lh, data))[b] {
      if b in lh {
        assert LoggedData(g, h, |lh|)[Position(lh, b)] == h[g.start + 1 + Position(lh, b)];
      }
    }
  }

  /** The header write commits: from here on recovery sees the new contents, and
      what is left to write is exactly what recovery would write. */
  lemma HeaderPhase(g: Geometry, d: Image, lh: seq<int>, data: seq<Block>, fs: Image)
    requires Settled(g, d, fs) && GoodHead(g, d, lh) && |lh| == |data|
    ensures InRange(d, LogWrites(g, data))
    ensures var h := ApplyAll(d, LogWrites(g, data))[g.start := HeadBlock(d[g.start], lh)];
            && Recovers(g, h, ApplyGroup(fs, GroupOf(lh, data)))
            && HeadOf(h[g.start]) == lh && LoggedData(g, h, |lh|) == data
  {
    SlotsFilled(g, d, data);
    var e := ApplyAll(d, LogWrites(g, data));
    var h := e[g.start := HeadBlock(d[g.start], lh)];
    HeadRoundTrip(d[g.start], lh);
    assert LoggedData(g, h, |lh|) == LoggedData(g, e, |lh|);
    CommittedView(g, h, lh, data, fs);
  }

  /** The writes of a commit, in their order. */
  lemma CommitParts(g: Geometry, hb: Block, lh: seq<int>, data: seq<Block>)
    requires |lh| == |data| && |lh| <= LOGSIZE && lh != [] && forall i :: 0 <= i < |lh| ==> lh[i] >= 0
    ensures var ws, n := CommitWrites(g, hb, lh, data), |lh|;
            && ws[..n + 1] == LogWrites(g, data) + [Write(g.start, HeadBlock(hb, lh))]
            && ws[n + 1..] == InstallWrites(lh, data) + [Write(g.start, HeadBlock(HeadBlock(hb, lh), []))]
  {
    hide LogWrites, InstallWrites, HeadBlock;
  }

  lemma HeaderSplit(g: Geometry, d: Image, lh: seq<int>, data: seq<Block>, fs: Image)
    requires Settled(g, d, fs) && GoodHead(g, d, lh) && |lh| == |data| && lh != []
    requires InRange(d, CommitWrites(g, d[g.start], lh, data))
    ensures var ws, n := CommitWrites(g, d[g.start], lh, data), |lh|;
            var h := ApplyAll(d, ws[..n + 1]);
            Recovers(g, h, ApplyGroup(fs, GroupOf(lh, data))) && ws[n + 1..] == RecoverWrites(g, h)
  {
    hide Recovers, ApplyAll, LogWrites, InstallWrites, CommitWrites, HeadBlock, GroupOf, ApplyGroup, LoggedData, HeadOf;
    HeaderPhase(g, d, lh, data, fs);
    CommitParts(g, d[g.start], lh, data);
    ApplyAllPush(d, LogWrites(g, data), Write(g.start, HeadBlock(d[g.start], lh)));
  }

  lemma InstalledHome(g: Geometry, d: Image, fs: Image)
    requires Recovers(g, d, fs)
    ensures var lh := HeadOf(d[g.start]);
            var ins := InstallWrites(lh, LoggedData(g, d, |lh|));
            InRange(d, ins) && forall b :: Home(g, d, b) ==> ApplyAll(d, ins)[b] == fs[b]
  {
    hide InstallWrites, ApplyAll, InRange, LoggedData, HeadOf, View;
    var lh := HeadOf(d[g.start]);
    var ins := InstallWrites(lh, LoggedData(g, d, |lh|));
    InstallInRange(g, d);
    forall b | Home(g, d, b) ensures ApplyAll(d, ins)[b] == fs[b] {
      assert View(g, d, b) == fs[b];
      InstalledView(g, d, b);
    }
  }

  lemma InstallInRange(g: Geometry, d: Image)
    requires Ready(g, d)
    ensures var lh := HeadOf(d[g.start]); InRange(d, InstallWrites(lh, LoggedData(g, d, |lh|)))
  {
  }

  lemma InstalledView(g: Geometry, d: Image, b: int)
    requires Ready(g, d) && Home(g, d, b)
    ensures var lh := HeadOf(d[g.start]);
            var ins := InstallWrites(lh, LoggedData(g, d, |lh|));
            InRange(d, ins) && ApplyAll(d, ins)[b] == View(g, d, b)
  {
    hide InstallWrites, ApplyAll, InRange, Position, HeadOf;
    var lh := HeadOf(d[g.start]);
    InstalledAt(d, lh, LoggedData(g, d, |lh|), b);
  }

  lemma InstalledAt(d: Image, lh: seq<int>, data: seq<Block>, b: int)
    requires |lh| == |data| && (forall i :: 0 <= i < |lh| ==> 0 <= lh[i] < |d|) && 0 <= b < |d|
    requires forall i, j :: 0 <= i < j < |lh| ==> lh[i] != lh[j]
    ensures InRange(d, InstallWrites(lh, data))
    ensures ApplyAll(d, InstallWrites(lh, data))[b] == if b in lh then data[Position(lh, b)] else d[b]
  {
    var ins := InstallWrites(lh, data);
    if b in lh {
      ApplyAllHit(d, ins, Position(lh, b));
    } else {
      ApplyAllFrame(d, ins, b);
    }
  }

  /** Installing every logged block and clearing the header leaves a settled disk. */
  lemma ClearPhase(g: Geometry, d: Image, fs: Image)
    requires Recovers(g, d, fs)
    ensures Settled(g, ApplyAll(d, RecoverWrites(g, d)), fs)
  {
    var lh := HeadOf(d[g.start]);
    var ins := InstallWrites(lh, LoggedData(g, d, |lh|));
    assert RecoverWrites(g, d)[..|lh|] == ins;
    InstalledHome(g, d, fs);
    HeadRoundTrip(d[g.start], []);
  }

  lemma CommitWritesInRange(g: Geometry, d: Image, lh: seq<int>, data: seq<Block>)
    requires Placed(g, d) && GoodHead(g, d, lh) && |lh| == |data|
    ensures InRange(d, CommitWrites(g, d[g.start], lh, data))
  {
  }

  /** Up to the header write a commit changes no home block. */
  lemma HomeUntilHeader(g: Geometry, d: Image, lh: seq<int>, data: seq<Block>, k: nat, b: nat)
    requires Placed(g, d) && GoodHead(g, d, lh) && |lh| == |data| && k <= |lh| && Home(g, d, b)
    ensures InRange(d, CommitWrites(g, d[g.start], lh, data)) && k <= |CommitWrites(g, d[g.start], lh, data)|
    ensures ApplyAll(d, CommitWrites(g, d[g.start], lh, data)[..k])[b] == d[b]
  {
    var ws := CommitWrites(g, d[g.start], lh, data);
    CommitWritesInRange(g, d, lh, data);
    assert ws[..k] == LogWrites(g, data)[..k];
    ApplyAllFrame(d, ws[..k], b);
  }

  /** Before the header write: a crash loses the transaction entirely. */
  lemma CrashBeforeHeader(g: Geometry, d: Image, lh: seq<int>, data: seq<Block>, k: nat, c: Image, fs: Image)
    requires Settled(g, d, fs) && GoodHead(g, d, lh) && |lh| == |data| && lh != [] && k <= |lh|
    requires InRange(d, CommitWrites(g, d[g.start], lh, data))
    requires CrashImage(g, d, CommitWrites(g, d[g.start], lh, data), k, c)
    ensures Settled(g, c, fs)
  {
    var ws := CommitWrites(g, d[g.start], lh, data);
    assert ws[..k] == LogWrites(g, data)[..k];
    LogPhase(g, d, ws[..k], fs);
    if c != ApplyAll(d, ws[..k]) {
      var junk :| c == Torn(ApplyAll(d, ws[..k]), ws[k].bno, junk);
      LogPhase(g, ApplyAll(d, ws[..k]), [Write(ws[k].bno, junk)], fs);
    }
  }

  /** After the header write: the whole transaction survives. */
  lemma CrashAfterHeader(g: Geometry, d: Image, lh: seq<int>, data: seq<Block>, k: nat, c: Image, fs: Image)
    requires Settled(g, d, fs) && GoodHead(g, d, lh) && |lh| == |data| && lh != [] && |lh| < k <= 2 * |lh| + 2
    requires InRange(d, CommitWrites(g, d[g.start], lh, data))
    requires CrashImage(g, d, CommitWrites(g, d[g.start], lh, data), k, c)
    ensures Recovers(g, c, ApplyGroup(fs, GroupOf(lh, data)))
    ensures k == 2 * |lh| + 2 ==> Settled(g, c, ApplyGroup(fs, GroupOf(lh, data)))
  {
    HeaderSplit(g, d, lh, data, fs);
    TailCrash(g, d, CommitWrites(g, d[g.start], lh, data), |lh|, k, c, ApplyGroup(fs, GroupOf(lh, data)));
  }

  lemma TailCrash(g: Geometry, d: Image, ws: seq<Write>, n: nat, k: nat, c: Image, fs: Image)
    requires InRange(d, ws) && n < k <= |ws| && CrashImage(g, d, ws, k, c)
    requires var h := ApplyAll(d, ws[..n + 1]); Recovers(g, h, fs) && ws[n + 1..] == RecoverWrites(g, h)
    ensures Recovers(g, c, fs)
    ensures k == |ws| ==> Settled(g, c, fs)
  {
    hide Recovers, Settled, CrashImage;
    var h := ApplyAll(d, ws[..n + 1]);
    RecoveryTail(g, d, ws, n, k, c, h);
    RecoverCrash(g, h, k - n - 1, c, fs);
  }

  lemma RecoveryTail(g: Geometry, d: Image, ws: seq<Write>, n: nat, k: nat, c: Image, h: Image)
    requires InRange(d, ws) && n < k <= |ws| && CrashImage(g, d, ws, k, c)
    requires h == ApplyAll(d, ws[..n + 1]) && InRange(h, ws[n + 1..])
    ensures CrashImage(g, h, ws[n + 1..], k - n - 1, c)
  {
    var rest := ws[n + 1..];
    assert ws[..k] == ws[..n + 1] + rest[..k - n - 1];
    ApplyAllAppend(d, ws[..n + 1], rest[..k - n - 1]);
    if k < |ws| { assert rest[k - n - 1] == ws[k]; }
  }

  /** A crash anywhere in recovery leaves a disk that recovers to the same contents. */
  lemma RecoverCrash(g: Geometry, d: Image, k: nat, c: Image, fs: Image)
    requires Recovers(g, d, fs) && CrashImage(g, d, RecoverWrites(g, d), k, c)
    ensures Recovers(g, c, fs)
    ensures k == |RecoverWrites(g, d)| ==> Settled(g, c, fs)
  {
    var ws := RecoverWrites(g, d);
    var lh := HeadOf(d[g.start]);
    if k == |ws| {
      assert ws[..k] == ws;
      ClearPhase(g, d, fs);
      SettledRecovers(g, c, fs);
    } else {
      assert forall i :: 0 <= i < |lh| ==> ws[i].bno in lh;
      InstallPhase(g, d, ws[..k], fs);
      if c != ApplyAll(d, ws[..k]) {
        var junk :| c == Torn(ApplyAll(d, ws[..k]), ws[k].bno, junk);
        InstallPhase(g, ApplyAll(d, ws[..k]), [Write(ws[k].bno, junk)], fs);
      }
    }
  }
}
