/**
 What the operations of the file system hand to log_write: which blocks, and
 how many. The blocks logged by a write are told from the states before and
 after it.
 */
module FsLog {
  import Bits
  import opened FsSpec
  import opened FsEffects
  import LogSpec
  import Sets

  const IPB := 16

  function Bblock(g: Geometry, b: nat): nat {
    b / BPB + g.bmapstart
  }

  function Iblock(g: Geometry, ino: nat): nat {
    ino / IPB + g.inodestart
  }

  // ----- which blocks a write logs -----

  /** A block that has been taken from the free ones. */
  predicate New(s: St, s': St, c: nat) {
    c < |s.own| && c < |s'.own| && s.own[c] == Free && s'.own[c] != Free
  }

  /** A new block listed in an indirect block. */
  predicate NewEntry(s: St, s': St, c: nat) {
    New(s, s', c) && s'.own[c].DataOf? && s'.own[c].bn >= NDIRECT
  }

  /** The bit map block of a new block. */
  ghost predicate NewBit(g: Geometry, s: St, s': St, c: nat) {
    exists d: nat :: New(s, s', d) && Bblock(g, d) == c
  }

  ghost predicate EntryAdded(s: St, s': St) {
    exists d: nat :: NewEntry(s, s', d)
  }

  /** Block bn of a file has some of the bytes [off, off + n). */
  predicate Covers(off: nat, n: nat, bn: nat) {
    n > 0 && off / BSIZE <= bn <= (off + n - 1) / BSIZE
  }

  ghost predicate Holds(s: St, ino: nat, off: nat, n: nat, c: nat) {
    exists bn: nat :: Covers(off, n, bn) && Addr(s, ino, bn) == c
  }

  /** New blocks and their bit map blocks are logged, an indirect block with a new entry, and the blocks written. */
  ghost predicate Touched(g: Geometry, s: St, s': St, ino: nat, off: nat, n: nat, c: nat) {
    New(s, s', c) || NewBit(g, s, s', c) || (EntryAdded(s, s') && c == Indirect(s', ino)) || Holds(s', ino, off, n, c)
  }

  ghost predicate TouchedAt(g: Geometry, s: St, s': St, log: set<nat>, log': set<nat>, ino: nat, off: nat, n: nat,
                            c: nat) {
    c in log' <==> c in log || Touched(g, s, s', ino, off, n, c)
  }

  /** The blocks logged are those touched, and no others. */
  ghost predicate Logs(g: Geometry, s: St, s': St, log: set<nat>, log': set<nat>, ino: nat, off: nat, n: nat) {
    forall c: nat {:trigger TouchedAt(g, s, s', log, log', ino, off, n, c)} ::
      TouchedAt(g, s, s', log, log', ino, off, n, c)
  }

  // ----- where blocks are added, and which -----

  predicate NewIndirect(s: St, s': St, ino: nat) {
    Indirect(s, ino) == 0 && Indirect(s', ino) != 0
  }

  predicate AddedAt(s: St, s': St, ino: nat, lo: nat, hi: nat, i: nat, n: nat) {
    Addr(s', i, n) == Addr(s, i, n) || (i == ino && lo <= n < hi && Addr(s, i, n) == 0)
  }

  predicate FirstAt(s: St, s': St, c: nat, d: nat) {
    New(s, s', c) && d < |s'.own| && s'.own[d] == Free ==> c < d
  }

  /** Blocks are added only in [lo, hi) of the file, and the indirect block only for those beyond the direct ones;
      the blocks taken are the first of the free ones. */
  ghost predicate Grown(s: St, s': St, ino: nat, lo: nat, hi: nat) {
    && (forall i: nat, n: nat {:trigger AddedAt(s, s', ino, lo, hi, i, n)} :: AddedAt(s, s', ino, lo, hi, i, n))
    && (forall c: nat, d: nat {:trigger FirstAt(s, s', c, d)} :: FirstAt(s, s', c, d))
    && (NewIndirect(s, s', ino) ==> lo < hi && hi > NDIRECT)
  }

  // ----- one block added -----

  predicate Lowest(s: St, b: nat) {
    b < |s.own| && s.own[b] == Free && forall c :: 0 <= c < b ==> s.own[c] != Free
  }

  lemma OneNew(g: Geometry, s: St, s': St, b: nat, o: Owner)
    requires Lowest(s, b) && o != Free && s'.own == s.own[b := o]
    ensures forall c: nat :: New(s, s', c) <==> c == b
    ensures forall c: nat :: NewBit(g, s, s', c) <==> c == Bblock(g, b)
    ensures EntryAdded(s, s') <==> o.DataOf? && o.bn >= NDIRECT
    ensures forall c: nat, d: nat :: FirstAt(s, s', c, d)
  {
    assert New(s, s', b);
    if o.DataOf? && o.bn >= NDIRECT { assert NewEntry(s, s', b); }
  }

  lemma NothingHeld(s: St, ino: nat, c: nat)
    ensures !Holds(s, ino, 0, 0, c)
  {
  }

  lemma LogsOne(g: Geometry, s: St, s': St, log: set<nat>, ino: nat, b: nat, o: Owner)
    requires Lowest(s, b) && o != Free && s'.own == s.own[b := o]
    ensures var log' := log + {Bblock(g, b), b} + if o.DataOf? && o.bn >= NDIRECT then {Indirect(s', ino)} else {};
            Logs(g, s, s', log, log', ino, 0, 0)
  {
    hide New, NewBit, EntryAdded, Holds, Indirect;
    var log' := log + {Bblock(g, b), b} + if o.DataOf? && o.bn >= NDIRECT then {Indirect(s', ino)} else {};
    OneNew(g, s, s', b, o);
    forall c: nat ensures TouchedAt(g, s, s', log, log', ino, 0, 0, c) { NothingHeld(s', ino, c); }
  }

  lemma GrownOne(g: Geometry, s: St, s': St, ino: nat, bn: nat, b: nat, o: Owner)
    requires Lowest(s, b) && o != Free && s'.own == s.own[b := o]
    requires SameAddrs(s, s') || (AddrSet(s, s', ino, bn, b) && Addr(s, ino, bn) == 0)
    requires NewIndirect(s, s', ino) ==> bn >= NDIRECT
    ensures Grown(s, s', ino, bn, bn + 1)
  {
    hide Addr, Indirect;
    OneNew(g, s, s', b, o);
    var hi := bn + 1;
    forall i: nat, n: nat ensures AddedAt(s, s', ino, bn, hi, i, n) {}
  }

  lemma LogsNone(g: Geometry, s: St, log: set<nat>, ino: nat, off: nat)
    ensures Logs(g, s, s, log, log, ino, off, 0)
  {
    forall c: nat ensures TouchedAt(g, s, s, log, log, ino, off, 0, c) {}
  }

  lemma GrownNone(s: St, ino: nat, lo: nat, hi: nat)
    ensures Grown(s, s, ino, lo, hi)
  {
    forall i: nat, n: nat ensures AddedAt(s, s, ino, lo, hi, i, n) {}
    forall c: nat, d: nat ensures FirstAt(s, s, c, d) {}
  }

  lemma LogsSame(g: Geometry, s: St, log: set<nat>, log': set<nat>, ino: nat)
    requires Logs(g, s, s, log, log', ino, 0, 0)
    ensures log' == log
  {
    forall c: nat ensures c in log' <==> c in log { assert TouchedAt(g, s, s, log, log', ino, 0, 0, c); }
  }

  // ----- one step after another -----

  lemma NewAfter(a: St, b: St, c: St, ino: nat, d: nat)
    requires Stays(a, b, ino) && Kept(b, c, ino)
    ensures New(a, c, d) <==> New(a, b, d) || New(b, c, d)
    ensures NewEntry(a, c, d) <==> NewEntry(a, b, d) || NewEntry(b, c, d)
  {
    assert OwnKept(a, b, ino, d) && BlockKept(b, c, ino, d);
  }

  lemma NewBitAfter(g: Geometry, a: St, b: St, c: St, ino: nat, d: nat)
    requires Stays(a, b, ino) && Kept(b, c, ino)
    ensures NewBit(g, a, c, d) <==> NewBit(g, a, b, d) || NewBit(g, b, c, d)
  {
    hide Stays, Kept, New, Bblock;
    forall e: nat ensures New(a, c, e) <==> New(a, b, e) || New(b, c, e) { NewAfter(a, b, c, ino, e); }
  }

  lemma EntryAfter(a: St, b: St, c: St, ino: nat)
    requires Stays(a, b, ino) && Kept(b, c, ino)
    ensures EntryAdded(a, c) <==> EntryAdded(a, b) || EntryAdded(b, c)
  {
    hide Stays, Kept, NewEntry;
    forall e: nat ensures NewEntry(a, c, e) <==> NewEntry(a, b, e) || NewEntry(b, c, e) { NewAfter(a, b, c, ino, e); }
  }

  /** Where an entry has been added there is an indirect block. */
  lemma EntryIndirect(g: Geometry, a: St, b: St, ino: nat)
    requires Ok(g, b) && EntryAdded(a, b) && forall c: nat {:trigger OwnKept(a, b, ino, c)} :: OwnKept(a, b, ino, c)
    ensures Indirect(b, ino) != 0
  {
    hide Bits.IsSet, Word;
    var d: nat :| NewEntry(a, b, d);
    assert OwnKept(a, b, ino, d);
    HasBit(g, b, d);
    assert BlockAt(g, b, d) && BlockAt(g, b, 0);
    HasBit(g, b, 0);
  }

  lemma LogsAfter(g: Geometry, a: St, b: St, c: St, log: set<nat>, log1: set<nat>, log': set<nat>, ino: nat, off: nat,
                  n: nat)
    requires Logs(g, a, b, log, log1, ino, off, n) && Logs(g, b, c, log1, log', ino, 0, 0)
    requires Ok(g, b) && Stays(a, b, ino) && Kept(b, c, ino)
    requires forall bn: nat :: Covers(off, n, bn) ==> Addr(c, ino, bn) == Addr(b, ino, bn)
    ensures Logs(g, a, c, log, log', ino, off, n)
  {
    hide Ok, Stays, Kept, New, NewBit, EntryAdded, Indirect, Addr, Covers;
    EntryAfter(a, b, c, ino);
    if EntryAdded(a, b) {
      assert forall d: nat {:trigger OwnKept(a, b, ino, d)} :: OwnKept(a, b, ino, d) by { StaysOwn(a, b, ino); }
      EntryIndirect(g, a, b, ino);
      KeptIndirect(b, c, ino);
    }
    forall x: nat ensures TouchedAt(g, a, c, log, log', ino, off, n, x) {
      assert TouchedAt(g, a, b, log, log1, ino, off, n, x) && TouchedAt(g, b, c, log1, log', ino, 0, 0, x);
      NewAfter(a, b, c, ino, x);
      NewBitAfter(g, a, b, c, ino, x);
      NothingHeld(c, ino, x);
    }
  }

  lemma StaysOwn(s: St, s': St, ino: nat)
    requires Stays(s, s', ino)
    ensures forall c: nat {:trigger OwnKept(s, s', ino, c)} :: OwnKept(s, s', ino, c)
  {
  }

  lemma KeptIndirect(s: St, s': St, ino: nat)
    requires Kept(s, s', ino) && Indirect(s, ino) != 0
    ensures Indirect(s', ino) == Indirect(s, ino)
  {
  }

  lemma GrownAfter(a: St, b: St, c: St, ino: nat, lo: nat, hi: nat, bn: nat)
    requires Grown(a, b, ino, lo, hi) && Grown(b, c, ino, bn, bn + 1) && lo <= bn < hi && Stays(a, b, ino)
             && Kept(b, c, ino)
    ensures Grown(a, c, ino, lo, hi)
  {
    hide Addr, Stays, Kept, Indirect;
    var next := bn + 1;
    forall i: nat, n: nat ensures AddedAt(a, c, ino, lo, hi, i, n) {
      assert AddedAt(a, b, ino, lo, hi, i, n) && AddedAt(b, c, ino, bn, next, i, n);
    }
    forall d: nat, e: nat ensures FirstAt(a, c, d, e) {
      assert FirstAt(a, b, d, e) && FirstAt(b, c, d, e);
      FreeBefore(b, c, ino, e);
      NewAfter(a, b, c, ino, d);
    }
  }

  lemma FreeBefore(b: St, c: St, ino: nat, e: nat)
    requires Kept(b, c, ino)
    ensures |b.own| == |c.own| && (e < |c.own| && c.own[e] == Free ==> b.own[e] == Free)
  {
    assert BlockKept(b, c, ino, e);
  }

  // ----- writing a block -----

  lemma CoversMore(off: nat, n: nat, m: nat, bn: nat)
    requires 0 < m <= BSIZE - (off + n) % BSIZE
    ensures Covers(off, n + m, bn) <==> Covers(off, n, bn) || bn == (off + n) / BSIZE
  {
    SameBlock(off + n, off + n + m - 1, m);
  }

  lemma LogsWrite(g: Geometry, s: St, m: St, log: set<nat>, log1: set<nat>, ino: nat, off: nat, n: nat, k: nat, b: nat,
                  bytes: Block)
    requires Logs(g, s, m, log, log1, ino, off, n) && b < |m.data| && SameAddrs(m, WriteBlock(m, b, bytes))
    requires 0 < k <= BSIZE - (off + n) % BSIZE && Addr(m, ino, (off + n) / BSIZE) == b
    ensures Logs(g, s, WriteBlock(m, b, bytes), log, log1 + {b}, ino, off, n + k)
  {
    hide Addr, Covers;
    var s', log', more := WriteBlock(m, b, bytes), log1 + {b}, n + k;
    forall bn: nat
      ensures Covers(off, more, bn) <==> Covers(off, n, bn) || bn == (off + n) / BSIZE
    {
      CoversMore(off, n, k, bn);
    }
    forall c: nat ensures TouchedAt(g, s, s', log, log', ino, off, more, c) {
      assert TouchedAt(g, s, m, log, log1, ino, off, n, c);
      assert NewBit(g, s, s', c) <==> NewBit(g, s, m, c) by { SameNew(s, m, s'); }
      assert EntryAdded(s, s') <==> EntryAdded(s, m) by { SameNew(s, m, s'); }
      HoldsMore(s', m, ino, off, n, more, b, c);
    }
  }

  lemma SameNew(s: St, m: St, s': St)
    requires m.own == s'.own
    ensures forall d: nat :: (New(s, s', d) <==> New(s, m, d)) && (NewEntry(s, s', d) <==> NewEntry(s, m, d))
  {
  }

  lemma HoldsMore(s': St, m: St, ino: nat, off: nat, n: nat, more: nat, b: nat, c: nat)
    requires SameAddrs(m, s') && Addr(m, ino, (off + n) / BSIZE) == b
    requires forall bn: nat :: Covers(off, more, bn) <==> Covers(off, n, bn) || bn == (off + n) / BSIZE
    ensures Holds(s', ino, off, more, c) <==> Holds(m, ino, off, n, c) || c == b
  {
    hide Addr, Covers;
    forall bn: nat ensures Addr(s', ino, bn) == Addr(m, ino, bn) {}
    var last := (off + n) / BSIZE;
    assert Covers(off, more, last) && Addr(s', ino, last) == b;
  }

  lemma GrownWrite(s: St, m: St, ino: nat, lo: nat, hi: nat, b: nat, bytes: Block)
    requires Grown(s, m, ino, lo, hi) && b < |m.data| && SameAddrs(m, WriteBlock(m, b, bytes))
    ensures Grown(s, WriteBlock(m, b, bytes), ino, lo, hi)
  {
    hide Addr;
    var s' := WriteBlock(m, b, bytes);
    forall i: nat, n: nat ensures AddedAt(s, s', ino, lo, hi, i, n) { assert AddedAt(s, m, ino, lo, hi, i, n); }
    forall c: nat, d: nat ensures FirstAt(s, s', c, d) { assert FirstAt(s, m, c, d); }
  }

  // ----- the whole write -----

  ghost predicate WriteAt(g: Geometry, s: St, s': St, log: set<nat>, log': set<nat>, ino: nat, off: nat, r: nat,
                          c: nat) {
    c in log' <==> c in log || c == Iblock(g, ino) || Touched(g, s, s', ino, off, r, c)
  }

  /** A write of r of n bytes has logged the blocks touched and the inode's block, and no others. */
  ghost predicate WriteLog(g: Geometry, s: St, s': St, log: set<nat>, log': set<nat>, ino: nat, off: nat, n: nat,
                           r: nat) {
    && (forall c: nat {:trigger WriteAt(g, s, s', log, log', ino, off, r, c)} ::
       WriteAt(g, s, s', log, log', ino, off, r, c))
    && Grown(s, s', ino, off / BSIZE, off / BSIZE + Span(off, n))
  }

  lemma WriteLogGrown(g: Geometry, s: St, s': St, log: set<nat>, log': set<nat>, ino: nat, off: nat, n: nat, r: nat)
    requires WriteLog(g, s, s', log, log', ino, off, n, r)
    ensures Grown(s, s', ino, off / BSIZE, off / BSIZE + Span(off, n))
  {
  }

  lemma WriteLogEnd(g: Geometry, s: St, m: St, s': St, log: set<nat>, log1: set<nat>, ino: nat, off: nat, n: nat,
                    r: nat)
    requires Logs(g, s, m, log, log1, ino, off, r) && Grown(s, m, ino, off / BSIZE, off / BSIZE + Span(off, n))
    requires SameAddrs(m, s') && s'.own == m.own && Indirect(s', ino) == Indirect(m, ino)
    ensures WriteLog(g, s, s', log, log1 + {Iblock(g, ino)}, ino, off, n, r)
  {
    hide Addr, Covers, Span, Indirect, Iblock;
    var log', lo, hi := log1 + {Iblock(g, ino)}, off / BSIZE, off / BSIZE + Span(off, n);
    SameNew(s, m, s');
    forall c: nat ensures WriteAt(g, s, s', log, log', ino, off, r, c) {
      assert TouchedAt(g, s, m, log, log1, ino, off, r, c);
      assert Holds(s', ino, off, r, c) <==> Holds(m, ino, off, r, c);
      assert NewBit(g, s, s', c) <==> NewBit(g, s, m, c);
      assert EntryAdded(s, s') <==> EntryAdded(s, m);
    }
    forall i: nat, k: nat ensures AddedAt(s, s', ino, lo, hi, i, k) { assert AddedAt(s, m, ino, lo, hi, i, k); }
    forall c: nat, d: nat ensures FirstAt(s, s', c, d) { assert FirstAt(s, m, c, d); }
  }

  // ----- how many blocks a write logs -----

  /** Writes that begin inside a block find it there: the file has no holes. */
  function First(off: nat): nat {
    if off % BSIZE != 0 then 1 else 0
  }

  ghost function News(s: St, s': St): set<nat> {
    set c: nat | c < |s.own| && New(s, s', c)
  }

  function Maps(g: Geometry, f: set<nat>): set<nat> {
    set d | d in f :: Bblock(g, d)
  }

  /** The bits of the blocks are in different bit map blocks. */
  ghost predicate Spread(f: set<nat>) {
    forall b, c :: b in f && c in f && b != c ==> b / BPB != c / BPB
  }

  lemma MapsMore(g: Geometry, f: set<nat>, x: nat)
    requires x !in f
    ensures Maps(g, f + {x}) == Maps(g, f) + {Bblock(g, x)}
    ensures Spread(f + {x}) <==> Spread(f) && Bblock(g, x) !in Maps(g, f)
  {
    assert forall d :: d in f ==> Bblock(g, d) in Maps(g, f);
    forall d | d in f + {x} ensures Bblock(g, d) in Maps(g, f) + {Bblock(g, x)} {}
  }

  lemma {:induction false} MapsSize(g: Geometry, f: set<nat>)
    ensures |Maps(g, f)| <= |f| && (|Maps(g, f)| == |f| <==> Spread(f))
    decreases |f|
  {
    if f != {} {
      hide Maps, Spread, Bblock;
      var x :| x in f;
      var rest := f - {x};
      MapsSize(g, rest);
      MapsMore(g, rest, x);
      assert f == rest + {x};
      Sets.UnionSize(Maps(g, rest), {Bblock(g, x)});
    }
  }

  /** The blocks that hold blocks [lo, lo + t) of a file. */
  function Targets(s: St, ino: nat, lo: nat, t: nat): set<nat> {
    if t == 0 then {}
    else Targets(s, ino, lo, t - 1) + if Addr(s, ino, lo + t - 1) != 0 then {Addr(s, ino, lo + t - 1)} else {}
  }

  lemma {:induction false} TargetsHas(s: St, ino: nat, lo: nat, t: nat, c: nat)
    ensures c in Targets(s, ino, lo, t) <==> c != 0 && exists bn: nat :: lo <= bn < lo + t && Addr(s, ino, bn) == c
  {
    hide Addr;
    if t > 0 {
      TargetsHas(s, ino, lo, t - 1, c);
    }
  }

  /** No block holds two blocks of a file. */
  lemma PlacesDiffer(g: Geometry, s: St, ino: nat, m: nat, n: nat)
    requires Ok(g, s) && Addr(s, ino, m) != 0 && m != n
    ensures Addr(s, ino, n) != Addr(s, ino, m)
  {
    hide Addr;
    assert PlaceAt(g, s, ino, m) && PlaceAt(g, s, ino, n);
  }

  lemma {:induction false} TargetsSize(g: Geometry, s: St, ino: nat, lo: nat, t: nat)
    requires Ok(g, s)
    ensures |Targets(s, ino, lo, t)| <= t
    ensures |Targets(s, ino, lo, t)| == t <==> forall bn: nat :: lo <= bn < lo + t ==> Addr(s, ino, bn) != 0
  {
    hide Addr;
    if t > 0 {
      TargetsSize(g, s, ino, lo, t - 1);
      var last := lo + t - 1;
      var b := Addr(s, ino, last);
      if b != 0 {
        TargetsHas(s, ino, lo, t - 1, b);
        forall bn: nat | lo <= bn < last ensures Addr(s, ino, bn) != b { PlacesDiffer(g, s, ino, last, bn); }
      }
    }
  }

  /** The indirect block, if there is one. */
  function IndirectSet(s: St, ino: nat): set<nat> {
    if Indirect(s, ino) != 0 then {Indirect(s, ino)} else {}
  }

  /** The effect of writing r of n bytes at off on sizes, owners and addresses. */
  ghost predicate Effect(g: Geometry, s: St, s': St, ino: nat, off: nat, n: nat, r: nat) {
    && Ok(g, s) && Ok(g, s') && ino in s.inodes && ino in s'.inodes
    && off <= s.inodes[ino].size && r <= n && off + r <= s'.inodes[ino].size
    && |s'.own| == |s.own| && (forall c: nat {:trigger OwnKept(s, s', ino, c)} :: OwnKept(s, s', ino, c))
    && Grown(s, s', ino, off / BSIZE, off / BSIZE + Span(off, n))
  }

  /** The same, with the blocks it logged. */
  ghost predicate Outcome(g: Geometry, s: St, s': St, log: set<nat>, log': set<nat>, ino: nat, off: nat, n: nat,
                          r: nat) {
    Effect(g, s, s', ino, off, n, r) && WriteLog(g, s, s', log, log', ino, off, n, r)
  }

  lemma SpanFacts(off: nat, n: nat)
    ensures var hi := off / BSIZE + Span(off, n);
            && off + n <= hi * BSIZE && First(off) <= Span(off, n)
            && (hi > 0 ==> (hi - 1) * BSIZE < off + n)
            && (n > 0 ==> hi - 1 == (off + n - 1) / BSIZE)
  {
    var hi := off / BSIZE + Span(off, n);
    assert off == off / BSIZE * BSIZE + off % BSIZE;
    var x := off % BSIZE + n + BSIZE - 1;
    assert x == x / BSIZE * BSIZE + x % BSIZE;
    if n > 0 { HighBlock(hi - 1, off + n - 1); }
  }

  lemma HighBlock(q: int, x: int)
    requires q * BSIZE <= x < (q + 1) * BSIZE
    ensures q == x / BSIZE
  {
  }

  lemma CoversSpan(off: nat, n: nat, r: nat, bn: nat)
    requires r <= n
    ensures Covers(off, r, bn) ==> off / BSIZE <= bn < off / BSIZE + Span(off, n) && bn * BSIZE < off + r
    ensures r == n > 0 && off / BSIZE <= bn < off / BSIZE + Span(off, n) ==> Covers(off, r, bn)
  {
    SpanFacts(off, n);
    if Covers(off, r, bn) { assert (off + r - 1) / BSIZE <= (off + n - 1) / BSIZE; }
  }

  lemma IndirectStays(g: Geometry, s: St, s': St, ino: nat)
    requires Ok(g, s) && Ok(g, s') && (forall c: nat {:trigger OwnKept(s, s', ino, c)} :: OwnKept(s, s', ino, c))
    ensures Indirect(s, ino) != 0 ==> Indirect(s', ino) == Indirect(s, ino) < |s.own| && s.own[Indirect(s, ino)] != Free
  {
    hide Bits.IsSet, Word, Addr, Indirect;
    var i := Indirect(s, ino);
    assert IndirectAt(g, s, ino);
    if i != 0 {
      HasBit(g, s', i);
      assert OwnKept(s, s', ino, i) && BlockAt(g, s', i);
    }
  }

  /** A new block is a block of the file that was missing, in the range written, or the indirect block. */
  lemma NewPlace(g: Geometry, s: St, s': St, ino: nat, off: nat, n: nat, r: nat, d: nat)
    requires Effect(g, s, s', ino, off, n, r) && New(s, s', d)
    ensures 0 < d
    ensures || (d == Indirect(s', ino) && Indirect(s, ino) == 0)
            || exists bn: nat :: off / BSIZE + First(off) <= bn < off / BSIZE + Span(off, n) && Addr(s', ino, bn) == d
                                 && Addr(s, ino, bn) == 0
  {
    hide Bits.IsSet, Word, Addr, Indirect, Span;
    var lo, hi := off / BSIZE, off / BSIZE + Span(off, n);
    HasBit(g, s', d);
    HasBit(g, s', 0);
    assert OwnKept(s, s', ino, d) && BlockAt(g, s', d) && BlockAt(g, s', 0);
    assert off % BSIZE != 0 ==> Addr(s, ino, lo) != 0
           by { assert FullAt(s, ino, lo) && lo * BSIZE + off % BSIZE == off; }
    if s'.own[d].DataOf? {
      var bn := s'.own[d].bn;
      assert AddedAt(s, s', ino, lo, hi, ino, bn) && PlaceAt(g, s, ino, bn);
    } else {
      IndirectStays(g, s, s', ino);
    }
  }

  lemma NewsWithin(g: Geometry, s: St, s': St, log: set<nat>, log': set<nat>, ino: nat, off: nat, n: nat, r: nat)
    requires Outcome(g, s, s', log, log', ino, off, n, r)
    ensures First(off) <= Span(off, n)
    ensures News(s, s') <= Targets(s', ino, off / BSIZE + First(off), Span(off, n) - First(off)) + IndirectSet(s', ino)
  {
    hide Effect, WriteLog, Addr, Indirect, Targets, Span, New, First;
    SpanFacts(off, n);
    var from, t := off / BSIZE + First(off), Span(off, n) - First(off);
    forall d | d in News(s, s') ensures d in Targets(s', ino, from, t) + IndirectSet(s', ino) {
      NewPlace(g, s, s', ino, off, n, r, d);
      TargetsHas(s', ino, from, t, d);
    }
  }

  /** What is logged is among the blocks of the range, the indirect block, the bit map blocks of new blocks and the
      inode's. */
  lemma LogWithin(g: Geometry, s: St, s': St, log: set<nat>, log': set<nat>, ino: nat, off: nat, n: nat, r: nat)
    requires Outcome(g, s, s', log, log', ino, off, n, r)
    ensures log <= log'
    ensures log' - log <= {Iblock(g, ino)} + (Targets(s', ino, off / BSIZE, Span(off, n)) + IndirectSet(s', ino))
            + Maps(g, News(s, s'))
  {
    hide Ok, Addr, Indirect, Targets, Span, New, Bblock, Iblock, First, Covers;
    var lo, t := off / BSIZE, Span(off, n);
    forall c | c in log ensures c in log' { assert WriteAt(g, s, s', log, log', ino, off, r, c); }
    forall c | c in log' - log
      ensures c in {Iblock(g, ino)} + (Targets(s', ino, lo, t) + IndirectSet(s', ino)) + Maps(g, News(s, s'))
    {
      assert WriteAt(g, s, s', log, log', ino, off, r, c);
      TargetsHas(s', ino, lo, t, c);
      if New(s, s', c) {
        NewPlace(g, s, s', ino, off, n, r, c);
      } else if NewBit(g, s, s', c) {
        var d: nat :| New(s, s', d) && Bblock(g, d) == c;
        InNews(s, s', d);
      } else if EntryAdded(s, s') && c == Indirect(s', ino) {
        EntryIndirect(g, s, s', ino);
      } else if Holds(s', ino, off, r, c) {
        var bn: nat :| Covers(off, r, bn) && Addr(s', ino, bn) == c;
        CoversSpan(off, n, r, bn);
        FullAddr(g, s', ino, bn);
      }
    }
  }

  lemma InNews(s: St, s': St, d: nat)
    requires New(s, s', d)
    ensures d in News(s, s')
  {
  }

  lemma FullAddr(g: Geometry, s: St, ino: nat, bn: nat)
    requires Ok(g, s) && ino in s.inodes && bn * BSIZE < s.inodes[ino].size
    ensures Addr(s, ino, bn) != 0
  {
    assert FullAt(s, ino, bn);
  }

  /** The sizes of the parts, from which the budget follows. */
  lemma PartSizes(g: Geometry, s: St, s': St, log: set<nat>, log': set<nat>, ino: nat, off: nat, n: nat, r: nat)
    requires Outcome(g, s, s', log, log', ino, off, n, r)
    ensures var t, first := Span(off, n), First(off);
            && |Targets(s', ino, off / BSIZE, t) + IndirectSet(s', ino)| <= t + 1
            && |Maps(g, News(s, s'))| <= |News(s, s')| <= t - first + 1
            && |log' - log| <= 1 + (t + 1) + |Maps(g, News(s, s'))|
  {
    hide Addr, Indirect, Targets, Span, New, Bblock, Iblock, First, Ok, WriteLog;
    var lo, t, first := off / BSIZE, Span(off, n), First(off);
    var all, maps := Targets(s', ino, lo, t) + IndirectSet(s', ino), Maps(g, News(s, s'));
    NewsWithin(g, s, s', log, log', ino, off, n, r);
    LogWithin(g, s, s', log, log', ino, off, n, r);
    TargetsSize(g, s', ino, lo, t);
    TargetsSize(g, s', ino, lo + first, t - first);
    Sets.UnionSize(Targets(s', ino, lo, t), IndirectSet(s', ino));
    Sets.UnionSize(Targets(s', ino, lo + first, t - first), IndirectSet(s', ino));
    Sets.SubsetSize(News(s, s'), Targets(s', ino, lo + first, t - first) + IndirectSet(s', ino));
    MapsSize(g, News(s, s'));
    Sets.UnionSize({Iblock(g, ino)}, all);
    Sets.UnionSize({Iblock(g, ino)} + all, maps);
    Sets.SubsetSize(log' - log, {Iblock(g, ino)} + all + maps);
  }

  /** No write logs more than its budget. */
  lemma WithinBudget(g: Geometry, s: St, s': St, log: set<nat>, log': set<nat>, ino: nat, off: nat, n: nat, r: nat)
    requires Outcome(g, s, s', log, log', ino, off, n, r)
    ensures log <= log' && |log' - log| <= Budget(off, n)
  {
    hide Outcome, Targets, Span, Maps, News;
    PartSizes(g, s, s', log, log', ino, off, n, r);
    LogWithin(g, s, s', log, log', ino, off, n, r);
  }

  // ----- when the budget is reached -----

  /** The blocks of f are free, and every other free block is after them. */
  ghost predicate Head(s: St, f: set<nat>) {
    && (forall b :: b in f ==> b < |s.own| && s.own[b] == Free)
    && (forall b, c :: b in f && 0 <= c < |s.own| && s.own[c] == Free && c !in f ==> b < c)
  }

  /** The write finds none of the blocks it needs but the one it begins inside, needs an indirect block,
      and the first free blocks, as many as are needed, have their bits in different bit map blocks. */
  ghost predicate Worst(s: St, ino: nat, off: nat, n: nat) {
    var from, hi := off / BSIZE + First(off), off / BSIZE + Span(off, n);
    && (forall bn: nat :: from <= bn < hi ==> Addr(s, ino, bn) == 0)
    && Indirect(s, ino) == 0 && hi > NDIRECT
    && exists f: set<nat> :: Head(s, f) && Spread(f) && |f| == hi - from + 1
  }

  /** Only a want of blocks makes a write short. */
  ghost predicate ShortOnlyIfFull(s': St, ino: nat, off: nat, n: nat, r: nat) {
    r < n ==> NoneFree(s') && Addr(s', ino, (off + r) / BSIZE) == 0
  }

  /** A write that reaches its budget has taken a block for every one it could. */
  lemma ReachedAll(g: Geometry, s: St, s': St, log': set<nat>, ino: nat, off: nat, n: nat, r: nat)
    requires Outcome(g, s, s', {}, log', ino, off, n, r) && |log'| == Budget(off, n)
    ensures First(off) <= Span(off, n)
    ensures News(s, s') == Targets(s', ino, off / BSIZE + First(off), Span(off, n) - First(off)) + IndirectSet(s', ino)
    ensures Spread(News(s, s')) && |News(s, s')| == Span(off, n) - First(off) + 1
    ensures Indirect(s', ino) != 0
    ensures forall bn: nat :: off / BSIZE + First(off) <= bn < off / BSIZE + Span(off, n) ==> Addr(s', ino, bn) != 0
  {
    hide Addr, Indirect, Targets, Span, New, Bblock, Iblock, Ok, WriteLog;
    var first, t := First(off), Span(off, n);
    PartSizes(g, s, s', {}, log', ino, off, n, r);
    assert log' - {} == log';
    NewsWithin(g, s, s', {}, log', ino, off, n, r);
    var from, k := off / BSIZE + first, t - first;
    TargetsSize(g, s', ino, from, k);
    Sets.UnionSize(Targets(s', ino, from, k), IndirectSet(s', ino));
    Sets.SubsetSize(News(s, s'), Targets(s', ino, from, k) + IndirectSet(s', ino));
    MapsSize(g, News(s, s'));
  }

  lemma NewsHead(g: Geometry, s: St, s': St, log: set<nat>, log': set<nat>, ino: nat, off: nat, n: nat, r: nat)
    requires Outcome(g, s, s', log, log', ino, off, n, r)
    ensures Head(s, News(s, s'))
  {
    hide Ok, Addr, Indirect, Span;
    var f := News(s, s');
    forall b, c | b in f && 0 <= c < |s.own| && s.own[c] == Free && c !in f ensures b < c {
      assert FirstAt(s, s', b, c);
    }
  }

  /** A block that is new now was not the file's before. */
  lemma NewMissing(g: Geometry, s: St, s': St, log: set<nat>, log': set<nat>, ino: nat, off: nat, n: nat, r: nat,
                   bn: nat)
    requires Outcome(g, s, s', log, log', ino, off, n, r)
    ensures Addr(s', ino, bn) != 0 && New(s, s', Addr(s', ino, bn)) ==> Addr(s, ino, bn) == 0
  {
    hide Bits.IsSet, Addr, Span, Touched;
    var lo, hi := off / BSIZE, off / BSIZE + Span(off, n);
    assert AddedAt(s, s', ino, lo, hi, ino, bn) && PlaceAt(g, s, ino, bn);
  }

  lemma ReachedWorst(g: Geometry, s: St, s': St, log': set<nat>, ino: nat, off: nat, n: nat, r: nat)
    requires Outcome(g, s, s', {}, log', ino, off, n, r) && |log'| == Budget(off, n)
    ensures Worst(s, ino, off, n)
  {
    hide Ok, Addr, Indirect, Targets, Span, First, Budget, Head, Spread, Touched;
    ReachedAll(g, s, s', log', ino, off, n, r);
    NewsHead(g, s, s', {}, log', ino, off, n, r);
    var from, k := off / BSIZE + First(off), Span(off, n) - First(off);
    forall bn: nat | from <= bn < from + k ensures Addr(s, ino, bn) == 0 {
      TargetsHas(s', ino, from, k, Addr(s', ino, bn));
      assert Addr(s', ino, bn) in News(s, s');
      NewMissing(g, s, s', {}, log', ino, off, n, r, bn);
    }
    assert Indirect(s', ino) in News(s, s');
    IndirectStays(g, s, s', ino);
    assert NewIndirect(s, s', ino);
  }

  // ----- and conversely -----

  lemma WorstNonempty(g: Geometry, s: St, ino: nat, off: nat, n: nat)
    requires Ok(g, s) && ino in s.inodes && off <= s.inodes[ino].size && Worst(s, ino, off, n)
    ensures n > 0
  {
    hide Ok, Addr, Span, Head, Spread;
    SpanFacts(off, n);
    var last := off / BSIZE + Span(off, n) - 1;
    if n == 0 {
      FullAddr(g, s, ino, last);
      EntryNeedsIndirect(s, ino, last);
      assert false;
    }
  }

  lemma EntryNeedsIndirect(s: St, ino: nat, bn: nat)
    requires Addr(s, ino, bn) != 0 && bn >= NDIRECT
    ensures Indirect(s, ino) != 0
  {
  }

  /** With enough free blocks the write is whole. */
  lemma WorstWhole(g: Geometry, s: St, s': St, log: set<nat>, log': set<nat>, ino: nat, off: nat, n: nat, r: nat)
    requires Outcome(g, s, s', log, log', ino, off, n, r) && Worst(s, ino, off, n)
             && ShortOnlyIfFull(s', ino, off, n, r)
    ensures r == n
  {
    hide Ok, Addr, Indirect, Targets, Span, First, WriteLog, Spread;
    var from, k := off / BSIZE + First(off), Span(off, n) - First(off);
    NewsWithin(g, s, s', log, log', ino, off, n, r);
    var f: set<nat> :| Head(s, f) && Spread(f) && |f| == k + 1;
    if r < n {
      var bn := (off + r) / BSIZE;
      MissingInRange(g, s', ino, off, n, r);
      TargetsSize(g, s', ino, from, k);
      Sets.UnionSize(Targets(s', ino, from, k), IndirectSet(s', ino));
      Sets.SubsetSize(News(s, s'), Targets(s', ino, from, k) + IndirectSet(s', ino));
      AllTaken(s, s', f);
      Sets.SubsetSize(f, News(s, s'));
      assert false;
    }
  }

  lemma AllTaken(s: St, s': St, f: set<nat>)
    requires Head(s, f) && NoneFree(s') && |s'.own| == |s.own|
    ensures f <= News(s, s')
  {
    forall b | b in f ensures b in News(s, s') { assert s'.own[b] in s'.own; }
  }

  lemma MissingInRange(g: Geometry, s': St, ino: nat, off: nat, n: nat, r: nat)
    requires Ok(g, s') && ino in s'.inodes && off + r <= s'.inodes[ino].size && r < n
             && Addr(s', ino, (off + r) / BSIZE) == 0
    ensures off / BSIZE + First(off) <= (off + r) / BSIZE < off / BSIZE + Span(off, n)
  {
    hide Addr;
    SpanFacts(off, n);
    var bn := (off + r) / BSIZE;
    assert bn * BSIZE == off + r by { assert FullAt(s', ino, bn); }
    assert off == off / BSIZE * BSIZE + off % BSIZE;
  }

  lemma SpanFull(g: Geometry, s: St, ino: nat, off: nat, n: nat)
    requires Ok(g, s) && ino in s.inodes && off + n <= s.inodes[ino].size
    ensures forall bn: nat :: bn < off / BSIZE + Span(off, n) ==> Addr(s, ino, bn) != 0
  {
    hide Ok, Addr, Span;
    SpanFacts(off, n);
    var hi := off / BSIZE + Span(off, n);
    forall bn: nat | bn < hi ensures Addr(s, ino, bn) != 0 {
      assert bn * BSIZE <= (hi - 1) * BSIZE;
      FullAddr(g, s, ino, bn);
    }
  }

  /** The whole write takes a block for every one that is missing, and the indirect block. */
  lemma WorstTakes(g: Geometry, s: St, s': St, log: set<nat>, log': set<nat>, ino: nat, off: nat, n: nat)
    requires Outcome(g, s, s', log, log', ino, off, n, n) && Worst(s, ino, off, n)
    ensures First(off) <= Span(off, n)
    ensures forall bn: nat :: off / BSIZE <= bn < off / BSIZE + Span(off, n) ==> Addr(s', ino, bn) != 0
    ensures News(s, s') == Targets(s', ino, off / BSIZE + First(off), Span(off, n) - First(off)) + IndirectSet(s', ino)
    ensures Indirect(s', ino) != 0 && |News(s, s')| == Span(off, n) - First(off) + 1
  {
    hide Ok, Addr, Indirect, Targets, Span, First, WriteLog, Spread, Head, New;
    var from, k, hi := off / BSIZE + First(off), Span(off, n) - First(off), off / BSIZE + Span(off, n);
    NewsWithin(g, s, s', log, log', ino, off, n, n);
    SpanFull(g, s', ino, off, n);
    EntryNeedsIndirect(s', ino, hi - 1);
    forall c | c in Targets(s', ino, from, k) + IndirectSet(s', ino) ensures c in News(s, s') {
      TargetsHas(s', ino, from, k, c);
      if c == Indirect(s', ino) {
        FreshIndirect(g, s, s', ino);
      } else {
        var bn: nat :| from <= bn < from + k && Addr(s', ino, bn) == c;
        FreshBlock(g, s, s', ino, bn);
      }
      InNews(s, s', c);
    }
    TargetsSize(g, s', ino, from, k);
    IndirectApart(g, s', ino, from, k);
    Sets.UnionSize(Targets(s', ino, from, k), IndirectSet(s', ino));
  }

  lemma IndirectApart(g: Geometry, s: St, ino: nat, lo: nat, t: nat)
    requires Ok(g, s)
    ensures Targets(s, ino, lo, t) !! IndirectSet(s, ino)
  {
    hide Addr, Indirect, Targets;
    var i := Indirect(s, ino);
    TargetsHas(s, ino, lo, t, i);
    assert IndirectAt(g, s, ino);
    forall bn: nat ensures Addr(s, ino, bn) == 0 || Addr(s, ino, bn) != i { assert PlaceAt(g, s, ino, bn); }
  }

  lemma FreshBlock(g: Geometry, s: St, s': St, ino: nat, bn: nat)
    requires Ok(g, s) && Ok(g, s') && ino in s.inodes && |s'.own| == |s.own|
             && (forall c: nat {:trigger OwnKept(s, s', ino, c)} :: OwnKept(s, s', ino, c))
    requires Addr(s, ino, bn) == 0 && Addr(s', ino, bn) != 0
    ensures New(s, s', Addr(s', ino, bn))
  {
    hide Bits.IsSet, Word, Addr, Indirect;
    var d := Addr(s', ino, bn);
    assert PlaceAt(g, s', ino, bn);
    HasBit(g, s, d);
    assert OwnKept(s, s', ino, d) && BlockAt(g, s, d);
  }

  lemma FreshIndirect(g: Geometry, s: St, s': St, ino: nat)
    requires Ok(g, s) && Ok(g, s') && ino in s.inodes && |s'.own| == |s.own|
             && (forall c: nat {:trigger OwnKept(s, s', ino, c)} :: OwnKept(s, s', ino, c))
    requires Indirect(s, ino) == 0 && Indirect(s', ino) != 0
    ensures New(s, s', Indirect(s', ino))
  {
    hide Bits.IsSet, Word, Addr, Indirect;
    var d := Indirect(s', ino);
    assert IndirectAt(g, s', ino);
    HasBit(g, s, d);
    assert OwnKept(s, s', ino, d) && BlockAt(g, s, d);
  }

  /** The blocks taken are the first free ones. */
  lemma TakesHead(g: Geometry, s: St, s': St, log: set<nat>, log': set<nat>, ino: nat, off: nat, n: nat, r: nat,
                  f: set<nat>)
    requires Outcome(g, s, s', log, log', ino, off, n, r) && Head(s, f) && |f| == |News(s, s')|
    ensures f == News(s, s')
  {
    hide Ok, Addr, Indirect, Span;
    var news := News(s, s');
    NewsHead(g, s, s', log, log', ino, off, n, r);
    if b :| b in f && b !in news {
      assert news <= f - {b} by {
        forall c | c in news ensures c in f - {b} { assert c < b; }
      }
      Sets.SubsetSize(news, f - {b});
      assert false;
    }
    Sets.SubsetSize(f, news);
  }

  /** The metadata areas: the inodes' blocks are before the bit map, and the bit map before the data. */
  predicate Areas(g: Geometry, ino: nat) {
    Iblock(g, ino) < g.bmapstart && g.size > 0 && Bblock(g, g.size - 1) < g.nmeta
  }

  lemma WorstSizes(g: Geometry, s: St, s': St, log: set<nat>, log': set<nat>, ino: nat, off: nat, n: nat)
    requires Outcome(g, s, s', log, log', ino, off, n, n) && Worst(s, ino, off, n)
    ensures |Targets(s', ino, off / BSIZE, Span(off, n)) + IndirectSet(s', ino)| == Span(off, n) + 1
    ensures |Maps(g, News(s, s'))| == Span(off, n) - First(off) + 1
  {
    hide Ok, Addr, Indirect, Targets, Span, First, WriteLog, Spread, Head, News, Maps;
    var lo, t := off / BSIZE, Span(off, n);
    WorstTakes(g, s, s', log, log', ino, off, n);
    var f: set<nat> :| Head(s, f) && Spread(f) && |f| == t - First(off) + 1;
    TakesHead(g, s, s', log, log', ino, off, n, n, f);
    MapsSize(g, f);
    TargetsSize(g, s', ino, lo, t);
    IndirectApart(g, s', ino, lo, t);
    Sets.UnionSize(Targets(s', ino, lo, t), IndirectSet(s', ino));
  }

  lemma WorstReached(g: Geometry, s: St, s': St, log': set<nat>, ino: nat, off: nat, n: nat, r: nat)
    requires Outcome(g, s, s', {}, log', ino, off, n, r) && ShortOnlyIfFull(s', ino, off, n, r) && Areas(g, ino)
    requires Worst(s, ino, off, n)
    ensures |log'| == Budget(off, n)
  {
    hide Ok, Worst, WriteLog, Targets, IndirectSet, News, Maps, Span, First, Budget;
    WorstWhole(g, s, s', {}, log', ino, off, n, r);
    WorstSizes(g, s, s', {}, log', ino, off, n);
    AllLogged(g, s, s', log', ino, off, n);
    PartsApart(g, s, s', ino, off / BSIZE, Span(off, n));
    var all := Targets(s', ino, off / BSIZE, Span(off, n)) + IndirectSet(s', ino);
    Sets.PartsSize({Iblock(g, ino)}, all, Maps(g, News(s, s')), log');
    WithinBudget(g, s, s', {}, log', ino, off, n, n);
    assert log' - {} == log';
    BudgetSum(off, n);
  }

  lemma BudgetSum(off: nat, n: nat)
    ensures Budget(off, n) == 1 + (Span(off, n) + 1) + (Span(off, n) - First(off) + 1)
  {
  }

  lemma AllLogged(g: Geometry, s: St, s': St, log': set<nat>, ino: nat, off: nat, n: nat)
    requires Outcome(g, s, s', {}, log', ino, off, n, n) && Worst(s, ino, off, n)
    ensures {Iblock(g, ino)} + (Targets(s', ino, off / BSIZE, Span(off, n)) + IndirectSet(s', ino)) + Maps(g,
            News(s, s')) <= log'
  {
    hide Ok, Addr, Indirect, Targets, Span, First, Spread, Head, New, Iblock, Bblock, Covers;
    WorstNonempty(g, s, ino, off, n);
    WorstTakes(g, s, s', {}, log', ino, off, n);
    var lo, t := off / BSIZE, Span(off, n);
    forall c | c in {Iblock(g, ino)} + (Targets(s', ino, lo, t) + IndirectSet(s', ino)) + Maps(g, News(s, s'))
      ensures c in log' {
      assert WriteAt(g, s, s', {}, log', ino, off, n, c);
      if c in Targets(s', ino, lo, t) {
        TargetsHas(s', ino, lo, t, c);
        var bn: nat :| lo <= bn < lo + t && Addr(s', ino, bn) == c;
        CoversSpan(off, n, n, bn);
      } else if c in Maps(g, News(s, s')) {
        var d :| d in News(s, s') && Bblock(g, d) == c;
      }
    }
  }

  lemma PartsApart(g: Geometry, s: St, s': St, ino: nat, lo: nat, t: nat)
    requires Ok(g, s') && Areas(g, ino) && |s.own| == |s'.own|
    ensures {Iblock(g, ino)} !! Targets(s', ino, lo, t) + IndirectSet(s', ino)
    ensures {Iblock(g, ino)} + (Targets(s', ino, lo, t) + IndirectSet(s', ino)) !! Maps(g, News(s, s'))
  {
    hide Bits.IsSet, Addr, Indirect, Targets, Iblock;
    forall c | c in Targets(s', ino, lo, t) + IndirectSet(s', ino) ensures c >= g.nmeta {
      TargetsHas(s', ino, lo, t, c);
      assert IndirectAt(g, s', ino);
      forall bn: nat
        ensures Addr(s', ino, bn) != 0 ==> Addr(s', ino, bn) < g.size && s'.own[Addr(s', ino, bn)].DataOf?
      {
        assert PlaceAt(g, s', ino, bn);
      }
      HasBit(g, s', c);
      assert BlockAt(g, s', c);
    }
    forall c | c in Maps(g, News(s, s')) ensures g.bmapstart <= c < g.nmeta {
      var d :| d in News(s, s') && Bblock(g, d) == c;
      assert d / BPB <= (g.size - 1) / BPB;
    }
  }

  /** A write logs as many blocks as its budget allows exactly if it is the worst case. */
  lemma BudgetReached(g: Geometry, s: St, s': St, log': set<nat>, ino: nat, off: nat, n: nat, r: nat)
    requires Outcome(g, s, s', {}, log', ino, off, n, r) && ShortOnlyIfFull(s', ino, off, n, r) && Areas(g, ino)
    ensures |log'| == Budget(off, n) <==> Worst(s, ino, off, n)
  {
    hide Outcome, ShortOnlyIfFull, Areas, Worst, Budget;
    if |log'| == Budget(off, n) {
      ReachedWorst(g, s, s', log', ino, off, n, r);
    }
    if Worst(s, ino, off, n) {
      WorstReached(g, s, s', log', ino, off, n, r);
    }
  }

  /** A chunk of filewrite logs MAXOPBLOCKS blocks exactly if it is the worst case and spans four blocks. */
  lemma LimitReached(g: Geometry, s: St, s': St, log': set<nat>, ino: nat, off: nat, n: nat, r: nat)
    requires Outcome(g, s, s', {}, log', ino, off, n, r) && ShortOnlyIfFull(s', ino, off, n, r) && Areas(g, ino)
             && n <= CHUNK
    ensures |log'| == LogSpec.MAXOPBLOCKS <==> Worst(s, ino, off, n) && Span(off, n) == 4
  {
    hide Outcome, ShortOnlyIfFull, Areas, Worst;
    BudgetReached(g, s, s', log', ino, off, n, r);
    WithinBudget(g, s, s', {}, log', ino, off, n, r);
    assert log' - {} == log';
    assert Budget(off, n) == LogSpec.MAXOPBLOCKS <==> Span(off, n) == 4 by { ChunkFits(off, n); ChunkSpan(off, n); }
    ChunkFits(off, n);
  }

  lemma ChunkSpan(off: nat, n: nat)
    requires n <= CHUNK
    ensures Span(off, n) <= if off % BSIZE == 0 then 3 else 4
  {
  }

  // ----- what a truncation logs -----

  predicate Freed(s: St, s': St, d: nat) {
    d < |s.own| && d < |s'.own| && s.own[d] != Free && s'.own[d] == Free
  }

  ghost predicate FreedBit(g: Geometry, s: St, s': St, c: nat) {
    exists d: nat :: Freed(s, s', d) && Bblock(g, d) == c
  }

  ghost predicate FreesAt(g: Geometry, s: St, s': St, log: set<nat>, log': set<nat>, c: nat) {
    c in log' <==> c in log || FreedBit(g, s, s', c)
  }

  predicate OnlyFreed(s: St, s': St) {
    |s'.own| == |s.own| && forall d :: 0 <= d < |s.own| ==> s'.own[d] == s.own[d] || s'.own[d] == Free
  }

  /** Blocks have only been freed, and their bit map blocks have been logged, and no others. */
  ghost predicate Frees(g: Geometry, s: St, s': St, log: set<nat>, log': set<nat>) {
    && OnlyFreed(s, s')
    && (forall c: nat {:trigger FreesAt(g, s, s', log, log', c)} :: FreesAt(g, s, s', log, log', c))
  }

  lemma FreesNone(g: Geometry, s: St, log: set<nat>)
    ensures Frees(g, s, s, log, log)
  {
    forall c: nat ensures FreesAt(g, s, s, log, log, c) {}
  }

  lemma FreesOne(g: Geometry, s: St, m: St, s': St, log: set<nat>, log1: set<nat>, b: nat)
    requires Frees(g, s, m, log, log1) && b < |m.own| && m.own[b] != Free && s'.own == m.own[b := Free]
    ensures Frees(g, s, s', log, log1 + {Bblock(g, b)})
  {
    hide Bblock;
    var log' := log1 + {Bblock(g, b)};
    assert forall d: nat :: Freed(s, s', d) <==> Freed(s, m, d) || d == b;
    forall c: nat ensures FreesAt(g, s, s', log, log', c) {
      assert FreesAt(g, s, m, log, log1, c);
      assert Freed(s, s', b);
    }
  }

  lemma FreesSame(g: Geometry, s: St, m: St, s': St, log: set<nat>, log': set<nat>)
    requires Frees(g, s, m, log, log') && s'.own == m.own
    ensures Frees(g, s, s', log, log')
  {
    assert forall d: nat :: Freed(s, s', d) <==> Freed(s, m, d);
    forall c: nat ensures FreesAt(g, s, s', log, log', c) { assert FreesAt(g, s, m, log, log', c); }
  }

  ghost predicate TruncAt(g: Geometry, s: St, s': St, log: set<nat>, log': set<nat>, ino: nat, c: nat) {
    c in log' <==> c in log || c == Iblock(g, ino) || FreedBit(g, s, s', c)
  }

  /** A truncation logs the bit map blocks of the blocks freed and the inode's block, and no others. */
  ghost predicate TruncLog(g: Geometry, s: St, s': St, log: set<nat>, log': set<nat>, ino: nat) {
    && |s'.own| == |s.own|
    && (forall c: nat {:trigger TruncAt(g, s, s', log, log', ino, c)} :: TruncAt(g, s, s', log, log', ino, c))
  }

  lemma TruncLogEnd(g: Geometry, s: St, m: St, log: set<nat>, log': set<nat>, ino: nat)
    requires Frees(g, s, m, log, log')
    ensures TruncLog(g, s, m, log, log' + {Iblock(g, ino)}, ino)
  {
    var end := log' + {Iblock(g, ino)};
    forall c: nat ensures TruncAt(g, s, m, log, end, ino, c) { assert FreesAt(g, s, m, log, log', c); }
  }

  /** A truncation fits in one transaction if the bit map has fewer than MAXOPBLOCKS blocks. */
  lemma TruncFits(g: Geometry, s: St, s': St, log: set<nat>, log': set<nat>, ino: nat)
    requires TruncLog(g, s, s', log, log', ino) && |s.own| == g.size
    ensures |log' - log| <= 1 + (g.size + BPB - 1) / BPB
    ensures g.size <= (LogSpec.MAXOPBLOCKS - 1) * BPB ==> |log' - log| <= LogSpec.MAXOPBLOCKS
  {
    hide Iblock;
    var k := (g.size + BPB - 1) / BPB;
    forall c | c in log' - log ensures c in {Iblock(g, ino)} + Run(g.bmapstart, k) {
      assert TruncAt(g, s, s', log, log', ino, c);
      RunSize(g.bmapstart, k, c);
    }
    RunSize(g.bmapstart, k, 0);
    Sets.UnionSize({Iblock(g, ino)}, Run(g.bmapstart, k));
    Sets.SubsetSize(log' - log, {Iblock(g, ino)} + Run(g.bmapstart, k));
  }

  function Run(lo: nat, t: nat): set<nat> {
    if t == 0 then {} else Run(lo, t - 1) + {lo + t - 1}
  }

  lemma {:induction false} RunSize(lo: nat, t: nat, c: nat)
    ensures |Run(lo, t)| == t && (c in Run(lo, t) <==> lo <= c < lo + t)
  {
    if t > 0 {
      RunSize(lo, t - 1, c);
      RunSize(lo, t - 1, lo + t - 1);
    }
  }
}
