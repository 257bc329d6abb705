/**
 When a write is whole: the free blocks a write needs, counted before it
 begins, and why a write may stop short.
 */
module FsRoom {
  import Bits
  import opened FsSpec
  import opened FsEffects
  import opened FsLog
  import Sets

  ghost function FreeBlocks(s: St): set<nat> {
    set c: nat | c < |s.own| && s.own[c] == Free
  }

  /** How many of blocks [lo, lo + t) of a file are missing. */
  function MissingCount(s: St, ino: nat, lo: nat, t: nat): nat {
    if t == 0 then 0 else MissingCount(s, ino, lo, t - 1) + if Addr(s, ino, lo + t - 1) == 0 then 1 else 0
  }

  /** The blocks a write of n bytes at off has to add, the indirect block among them. */
  function Needed(s: St, ino: nat, off: nat, n: nat): nat {
    var lo, t := off / BSIZE, Span(off, n);
    MissingCount(s, ino, lo, t) + if t > 0 && lo + t > NDIRECT && Indirect(s, ino) == 0 then 1 else 0
  }

  /** The blocks added at [lo, lo + t). */
  function Fresh(s: St, s': St, ino: nat, lo: nat, t: nat): set<nat> {
    if t == 0 then {}
    else
      var bn := lo + t - 1;
      Fresh(s, s', ino, lo, t - 1) + if Addr(s, ino, bn) == 0 && Addr(s', ino, bn) != 0 then {Addr(s', ino, bn)} else {}
  }

  function FreshIndirects(s: St, s': St, ino: nat): set<nat> {
    if NewIndirect(s, s', ino) then {Indirect(s', ino)} else {}
  }

  lemma {:induction false} FreshHas(s: St, s': St, ino: nat, lo: nat, t: nat, c: nat)
    ensures c in Fresh(s, s', ino, lo, t) <==>
            c != 0 && exists bn: nat :: lo <= bn < lo + t && Addr(s, ino, bn) == 0 && Addr(s', ino, bn) == c
  {
    hide Addr;
    if t > 0 {
      FreshHas(s, s', ino, lo, t - 1, c);
    }
  }

  lemma {:induction false} FreshSize(g: Geometry, s: St, s': St, ino: nat, lo: nat, t: nat)
    requires Ok(g, s')
    ensures |Fresh(s, s', ino, lo, t)| <= MissingCount(s, ino, lo, t)
    ensures |Fresh(s, s', ino, lo, t)| == MissingCount(s, ino, lo, t) <==>
            forall bn: nat :: lo <= bn < lo + t && Addr(s, ino, bn) == 0 ==> Addr(s', ino, bn) != 0
  {
    hide Addr, Ok;
    if t > 0 {
      FreshSize(g, s, s', ino, lo, t - 1);
      var last := lo + t - 1;
      var b := Addr(s', ino, last);
      if b != 0 {
        FreshHas(s, s', ino, lo, t - 1, b);
        forall bn: nat | lo <= bn < last ensures Addr(s', ino, bn) != b { PlacesDiffer(g, s', ino, last, bn); }
      }
    }
  }

  /** Every new block is one of those. */
  lemma NewsFresh(g: Geometry, s: St, s': St, ino: nat, off: nat, n: nat, r: nat)
    requires Effect(g, s, s', ino, off, n, r)
    ensures News(s, s') <= Fresh(s, s', ino, off / BSIZE, Span(off, n)) + FreshIndirects(s, s', ino)
  {
    hide Effect, Addr, Indirect, Fresh, Span, New;
    var lo, t := off / BSIZE, Span(off, n);
    forall d | d in News(s, s') ensures d in Fresh(s, s', ino, lo, t) + FreshIndirects(s, s', ino) {
      NewPlace(g, s, s', ino, off, n, r, d);
      FreshHas(s, s', ino, lo, t, d);
    }
  }

  /** And each of those is new, so it was free. */
  lemma FreshNew(g: Geometry, s: St, s': St, ino: nat, off: nat, n: nat, r: nat)
    requires Effect(g, s, s', ino, off, n, r)
    ensures Fresh(s, s', ino, off / BSIZE, Span(off, n)) + FreshIndirects(s, s', ino) <= FreeBlocks(s)
    ensures Fresh(s, s', ino, off / BSIZE, Span(off, n)) !! FreshIndirects(s, s', ino)
  {
    hide Ok, Addr, Indirect, Fresh, Span, Grown;
    var lo, t := off / BSIZE, Span(off, n);
    forall d | d in Fresh(s, s', ino, lo, t) ensures d in FreeBlocks(s) && d != Indirect(s', ino) {
      FreshHas(s, s', ino, lo, t, d);
      var bn: nat :| lo <= bn < lo + t && Addr(s, ino, bn) == 0 && Addr(s', ino, bn) == d;
      FreshBlock(g, s, s', ino, bn);
      NotIndirect(g, s', ino, bn);
    }
    if NewIndirect(s, s', ino) { FreshIndirect(g, s, s', ino); }
  }

  lemma NotIndirect(g: Geometry, s: St, ino: nat, bn: nat)
    requires Ok(g, s) && Addr(s, ino, bn) != 0
    ensures Addr(s, ino, bn) != Indirect(s, ino)
  {
    hide Addr, Indirect;
    assert PlaceAt(g, s, ino, bn) && IndirectAt(g, s, ino);
  }

  lemma IndirectNeeded(g: Geometry, s: St, s': St, ino: nat, off: nat, n: nat, r: nat)
    requires Effect(g, s, s', ino, off, n, r)
    ensures var lo, t := off / BSIZE, Span(off, n);
            |FreshIndirects(s, s', ino)| <= if t > 0 && lo + t > NDIRECT && Indirect(s, ino) == 0 then 1 else 0
  {
    hide Ok, Indirect, Span;
  }

  /** A whole write found the blocks it needs. */
  lemma WholeEnough(g: Geometry, s: St, s': St, ino: nat, off: nat, n: nat)
    requires Effect(g, s, s', ino, off, n, n)
    ensures |FreeBlocks(s)| >= Needed(s, ino, off, n)
  {
    hide Ok, Addr, Indirect, Fresh, Span, Grown, MissingCount, FreeBlocks;
    var lo, t := off / BSIZE, Span(off, n);
    SpanFull(g, s', ino, off, n);
    FreshSize(g, s, s', ino, lo, t);
    FreshNew(g, s, s', ino, off, n, n);
    Sets.UnionSize(Fresh(s, s', ino, lo, t), FreshIndirects(s, s', ino));
    Sets.SubsetSize(Fresh(s, s', ino, lo, t) + FreshIndirects(s, s', ino), FreeBlocks(s));
    if t > 0 && lo + t > NDIRECT { EntryNeedsIndirect(s', ino, lo + t - 1); }
  }

  /** A write that is short for want of blocks did not. */
  lemma ShortTooFew(g: Geometry, s: St, s': St, ino: nat, off: nat, n: nat, r: nat)
    requires Effect(g, s, s', ino, off, n, r) && r < n && NoneFree(s') && Addr(s', ino, (off + r) / BSIZE) == 0
    ensures |FreeBlocks(s)| < Needed(s, ino, off, n)
  {
    hide Ok, Addr, Indirect, Fresh, Span, Grown, MissingCount, FreshIndirects;
    var lo, t, bn := off / BSIZE, Span(off, n), (off + r) / BSIZE;
    MissingInRange(g, s', ino, off, n, r);
    StillMissing(g, s, s', ino, off, n, r, bn);
    FreshSize(g, s, s', ino, lo, t);
    NewsFresh(g, s, s', ino, off, n, r);
    IndirectNeeded(g, s, s', ino, off, n, r);
    forall c | c in FreeBlocks(s) ensures c in News(s, s') { assert s'.own[c] in s'.own; }
    Sets.UnionSize(Fresh(s, s', ino, lo, t), FreshIndirects(s, s', ino));
    Sets.SubsetSize(FreeBlocks(s), Fresh(s, s', ino, lo, t) + FreshIndirects(s, s', ino));
  }

  lemma StillMissing(g: Geometry, s: St, s': St, ino: nat, off: nat, n: nat, r: nat, bn: nat)
    requires Effect(g, s, s', ino, off, n, r) && Addr(s', ino, bn) == 0
    ensures Addr(s, ino, bn) == 0
  {
    hide Ok, Addr, Span;
    var lo, hi := off / BSIZE, off / BSIZE + Span(off, n);
    assert AddedAt(s, s', ino, lo, hi, ino, bn);
  }

  /** A write with a readable source is whole exactly if there are free blocks enough. */
  lemma WholeIff(g: Geometry, s: St, s': St, ino: nat, off: nat, n: nat, r: nat)
    requires Effect(g, s, s', ino, off, n, r) && ShortOnlyIfFull(s', ino, off, n, r)
    ensures r == n <==> |FreeBlocks(s)| >= Needed(s, ino, off, n)
  {
    hide Ok, Grown, Addr, Needed, FreeBlocks, NoneFree;
    if r == n {
      WholeEnough(g, s, s', ino, off, n);
    } else {
      ShortTooFew(g, s, s', ino, off, n, r);
    }
  }

  // ----- why a write stops -----

  /** The bytes that the next round of writei copies at offset o. */
  function Piece(o: nat, left: nat): nat {
    if left < BSIZE - o % BSIZE then left else BSIZE - o % BSIZE
  }

  /** After r of n bytes there is no block to be had for the next ones, or the source has not enough for one round. */
  ghost predicate Stopped(s': St, ino: nat, off: nat, n: nat, r: nat, len: nat) {
    r < n ==> (NoneFree(s') && Addr(s', ino, (off + r) / BSIZE) == 0) || len < r + Piece(off + r, n - r)
  }

  lemma StoppedFull(s': St, ino: nat, off: nat, n: nat, r: nat)
    requires Stopped(s', ino, off, n, r, n)
    ensures ShortOnlyIfFull(s', ino, off, n, r)
  {
  }

  /** Where the chunk of filewrite begins and ends that the next byte is in. */
  function ChunkStart(total: nat): nat {
    total / CHUNK * CHUNK
  }

  function ChunkEnd(total: nat, n: nat): (end: nat)
    requires total < n
    ensures total < end <= n
  {
    if ChunkStart(total) + CHUNK < n then ChunkStart(total) + CHUNK else n
  }

  /** filewrite has written a part: the next chunk is beyond the largest file, or its writei stopped. */
  ghost predicate WhyShort(s': St, ino: nat, off: nat, n: nat, total: nat, len: nat)
    requires total < n
  {
    var start, end := ChunkStart(total), ChunkEnd(total, n);
    || (total == start && off + end > MAXFILE * BSIZE)
    || (NoneFree(s') && Addr(s', ino, (off + total) / BSIZE) == 0)
    || len < total + Piece(off + total, end - total)
  }

  lemma ChunkAt(i: nat, r: nat, n: nat)
    requires i % CHUNK == 0 && i < n && r < if n - i > CHUNK then CHUNK else n - i
    ensures ChunkStart(i + r) == i && ChunkEnd(i + r, n) == i + if n - i > CHUNK then CHUNK else n - i
  {
    hide ChunkStart;
    SameChunk(i, r, CHUNK);
  }

  lemma SameChunk(i: nat, r: nat, c: nat)
    requires c == CHUNK && i % c == 0 && r < c
    ensures ChunkStart(i + r) == i
  {
    assert c == 3072;
    Quotient(i, r);
  }

  lemma Quotient(i: nat, r: nat)
    requires i % 3072 == 0 && r < 3072
    ensures (i + r) / 3072 * 3072 == i
  {
  }

  // ----- one chunk after another -----

  lemma HighEnd(off: nat, i: nat, n: nat)
    ensures off / BSIZE <= (off + i) / BSIZE
    ensures (off + i) / BSIZE + Span(off + i, n) == off / BSIZE + Span(off, i + n)
    ensures off / BSIZE + Span(off, i) <= off / BSIZE + Span(off, i + n)
  {
    EndIs(off + i, n);
    EndIs(off, i + n);
  }

  lemma EndIs(off: nat, n: nat)
    ensures off / BSIZE + Span(off, n) == (off + n + BSIZE - 1) / BSIZE
  {
    assert off == off / BSIZE * BSIZE + off % BSIZE;
    AddBlocks(off / BSIZE, off % BSIZE + n + BSIZE - 1);
  }

  lemma AddBlocks(q: nat, x: nat)
    ensures (q * BSIZE + x) / BSIZE == q + x / BSIZE
  {
  }

  lemma EffectNone(g: Geometry, s: St, ino: nat, off: nat)
    requires Ok(g, s) && ino in s.inodes && off <= s.inodes[ino].size
    ensures Effect(g, s, s, ino, off, 0, 0)
  {
    hide Ok, Grown;
    GrownNone(s, ino, off / BSIZE, off / BSIZE + Span(off, 0));
    forall c: nat ensures OwnKept(s, s, ino, c) {}
  }

  lemma EffectMore(g: Geometry, a: St, b: St, c: St, ino: nat, off: nat, i: nat, n: nat, r: nat)
    requires Effect(g, a, b, ino, off, i, i) && Effect(g, b, c, ino, off + i, n, r)
    ensures Effect(g, a, c, ino, off, i + n, i + r)
  {
    hide Ok, Grown, Span;
    HighEnd(off, i, n);
    forall d: nat ensures OwnKept(a, c, ino, d) { assert OwnKept(a, b, ino, d) && OwnKept(b, c, ino, d); }
    GrownJoin(a, b, c, ino, off / BSIZE, off / BSIZE + Span(off, i), (off + i) / BSIZE, off / BSIZE + Span(off, i + n));
  }

  lemma GrownJoin(a: St, b: St, c: St, ino: nat, lo: nat, mid: nat, from: nat, hi: nat)
    requires Grown(a, b, ino, lo, mid) && Grown(b, c, ino, from, hi) && lo <= from && mid <= hi
    requires |a.own| == |b.own| == |c.own|
    requires forall d: nat {:trigger OwnKept(a, b, ino, d)} :: OwnKept(a, b, ino, d)
    requires forall d: nat {:trigger OwnKept(b, c, ino, d)} :: OwnKept(b, c, ino, d)
    ensures Grown(a, c, ino, lo, hi)
  {
    hide Addr, Indirect;
    forall i: nat, n: nat ensures AddedAt(a, c, ino, lo, hi, i, n) {
      assert AddedAt(a, b, ino, lo, mid, i, n) && AddedAt(b, c, ino, from, hi, i, n);
    }
    forall d: nat, e: nat ensures FirstAt(a, c, d, e) {
      assert FirstAt(a, b, d, e) && FirstAt(b, c, d, e) && OwnKept(a, b, ino, d) && OwnKept(b, c, ino, e);
    }
  }

  lemma EffectWide(g: Geometry, s: St, s': St, ino: nat, off: nat, m: nat, n: nat, r: nat)
    requires Effect(g, s, s', ino, off, m, r) && m <= n
    ensures Effect(g, s, s', ino, off, n, r)
  {
    hide Ok, Span, Addr, Indirect;
    HighEnd(off, m, n - m);
    var lo, mid, hi := off / BSIZE, off / BSIZE + Span(off, m), off / BSIZE + Span(off, n);
    forall i: nat, k: nat ensures AddedAt(s, s', ino, lo, hi, i, k) { assert AddedAt(s, s', ino, lo, mid, i, k); }
  }

  /** filewrite with a readable source, within the largest file, is whole exactly if there are free blocks enough. */
  lemma AllIff(g: Geometry, s: St, s': St, ino: nat, off: nat, n: nat, total: nat, len: nat)
    requires Effect(g, s, s', ino, off, n, total) && total <= len <= n
    requires total < n ==> WhyShort(s', ino, off, n, total, len)
    ensures total == n <==> off + n <= MAXFILE * BSIZE && len == n && |FreeBlocks(s)| >= Needed(s, ino, off, n)
  {
    hide Ok, Grown, Addr, Needed, FreeBlocks, NoneFree, Span;
    if total == n {
      WholeEnough(g, s, s', ino, off, n);
      LargestFile(g, s', ino);
    } else if off + n <= MAXFILE * BSIZE && len == n {
      assert total + Piece(off + total, ChunkEnd(total, n) - total) <= n;
      ShortTooFew(g, s, s', ino, off, n, total);
    }
  }

  lemma LargestFile(g: Geometry, s: St, ino: nat)
    requires Ok(g, s) && ino in s.inodes
    ensures s.inodes[ino].size <= MAXFILE * BSIZE
  {
    assert InodeAt(g, s, ino);
  }
}
