/**
 The buffer cache: NBUF buffers on an LRU ring, each caching at most one disk
 block. The value of a block, as the kernel sees it, is the buffer's data when
 the block is cached and valid, and the disk's contents otherwise.
 */
module Bio {
  import opened Options
  import opened Ring
  import opened Disk
  import Sets

  const NBUF := 30
  const HEAD := NBUF       // list node of the head; the buffers are nodes 0 .. NBUF - 1
  const ROOTDEV := 1

  datatype Buf = Buf(valid: bool, dev: nat, bno: nat, refcnt: nat, locked: bool, data: Block)

  predicate Caches(e: Buf, b: nat) {
    e.dev == ROOTDEV && e.bno == b
  }

  predicate Cached(buf: seq<Buf>, b: nat) {
    exists i :: 0 <= i < |buf| && Caches(buf[i], b)
  }

  ghost function Slot(buf: seq<Buf>, b: nat): nat
    requires Cached(buf, b)
    ensures Slot(buf, b) < |buf| && Caches(buf[Slot(buf, b)], b)
  {
    var i :| 0 <= i < |buf| && Caches(buf[i], b);
    i
  }

  /** What the cache keeps true of every buffer. */
  ghost predicate Coherent(disk: Image, buf: seq<Buf>) {
    && |buf| == NBUF
    // at most one buffer per block
    && (forall i, j :: 0 <= i < j < NBUF && buf[i].dev == ROOTDEV && buf[j].dev == ROOTDEV ==> buf[i].bno != buf[j].bno)
    && (forall i :: 0 <= i < NBUF ==> BufOk(disk, buf[i]))
  }

  ghost predicate BufOk(disk: Image, e: Buf) {
    && (e.dev == 0 || e.dev == ROOTDEV)
    && (e.dev == 0 ==> !e.valid && e.refcnt == 0)
    && (e.dev == ROOTDEV ==> e.bno < |disk|)
    && (e.locked ==> e.refcnt > 0)
    // only a referenced or pinned buffer may differ from the disk
    && (e.dev == ROOTDEV && e.valid && e.refcnt == 0 ==> e.data == disk[e.bno])
  }

  ghost function View(disk: Image, buf: seq<Buf>, b: nat): Block
    requires b < |disk|
  {
    if Cached(buf, b) && buf[Slot(buf, b)].valid then buf[Slot(buf, b)].data else disk[b]
  }

  ghost function Refcnt(buf: seq<Buf>, b: nat): nat {
    if Cached(buf, b) then buf[Slot(buf, b)].refcnt else 0
  }

  /** Block b is in use by somebody who holds its buffer's lock. */
  ghost predicate InUse(buf: seq<Buf>, b: nat) {
    Cached(buf, b) && buf[Slot(buf, b)].locked && buf[Slot(buf, b)].valid
  }

  /** The cache as its callers see it: the disk, the value and the reference count
      of every block, and which buffer each locked block is held in. */
  datatype Cache = Cache(disk: Image, views: Image, refs: seq<nat>, held: map<nat, nat>)

  ghost function CacheOf(disk: Image, buf: seq<Buf>): (a: Cache)
    ensures a.disk == disk && |a.views| == |a.refs| == |disk|
  {
    Cache(disk,
          seq(|disk|, b requires 0 <= b < |disk| => View(disk, buf, b)),
          seq(|disk|, b requires 0 <= b < |disk| => Refcnt(buf, b)),
          map b: nat | 0 <= b < |disk| && InUse(buf, b) :: Slot(buf, b))
  }

  lemma SlotIs(disk: Image, buf: seq<Buf>, i: nat)
    requires Coherent(disk, buf) && i < NBUF && buf[i].dev == ROOTDEV
    ensures Cached(buf, buf[i].bno) && Slot(buf, buf[i].bno) == i
    ensures |buf| == NBUF && BufOk(disk, buf[i]) && buf[i].bno < |disk|
    ensures var a, b := CacheOf(disk, buf), buf[i].bno;
            && a.views[b] == (if buf[i].valid then buf[i].data else disk[b]) && a.refs[b] == buf[i].refcnt
            && (b in a.held <==> buf[i].locked && buf[i].valid) && (b in a.held ==> a.held[b] == i)
  {
    assert Caches(buf[i], buf[i].bno);
  }

  /** A held block sits, valid and referenced, in the buffer it is held in. */
  lemma HeldAt(disk: Image, buf: seq<Buf>, b: nat)
    requires Coherent(disk, buf) && b in CacheOf(disk, buf).held
    ensures b < |disk| && |buf| == NBUF
    ensures var a := CacheOf(disk, buf);
            var i := a.held[b];
            && i < NBUF && Caches(buf[i], b) && buf[i].valid && buf[i].locked && buf[i].refcnt > 0
               && BufOk(disk, buf[i])
            && a.views[b] == buf[i].data && a.refs[b] == buf[i].refcnt
  {
    SlotIs(disk, buf, Slot(buf, b));
  }

  function Updated(a: Cache, i: nat, e: Buf): Cache
    requires e.bno < |a.disk| && |a.views| == |a.refs| == |a.disk|
  {
    a.(views := a.views[e.bno := if e.valid then e.data else a.disk[e.bno]],
       refs := a.refs[e.bno := e.refcnt],
       held := if e.locked && e.valid then a.held[e.bno := i] else a.held - {e.bno})
  }

  /** Changing a buffer without renaming it concerns its own block only. */
  lemma SameBlockUpdate(disk: Image, buf: seq<Buf>, i: nat, e: Buf)
    requires Coherent(disk, buf) && i < NBUF && buf[i].dev == ROOTDEV
    requires e.dev == ROOTDEV && e.bno == buf[i].bno && BufOk(disk, e)
    ensures Coherent(disk, buf[i := e])
    ensures CacheOf(disk, buf[i := e]) == Updated(CacheOf(disk, buf), i, e)
  {
    var buf' := buf[i := e];
    assert Coherent(disk, buf');
    SlotIs(disk, buf', i);
    forall b: nat | b < |disk| && b != e.bno ensures SameBlock(disk, buf, buf', b) {
      OtherBlock(disk, buf, i, e, b);
    }
    SameBlocks(disk, buf, buf', i, e);
  }

  ghost predicate SameBlock(disk: Image, buf: seq<Buf>, buf': seq<Buf>, b: nat)
    requires b < |disk|
  {
    && View(disk, buf', b) == View(disk, buf, b) && Refcnt(buf', b) == Refcnt(buf, b)
    && InUse(buf', b) == InUse(buf, b) && (InUse(buf, b) ==> Slot(buf', b) == Slot(buf, b))
  }

  lemma OtherBlock(disk: Image, buf: seq<Buf>, i: nat, e: Buf, b: nat)
    requires i < NBUF == |buf| && b < |disk| && Coherent(disk, buf) && Coherent(disk, buf[i := e])
    requires !Caches(buf[i], b) && !Caches(e, b)
    ensures SameBlock(disk, buf, buf[i := e], b)
  {
    var buf' := buf[i := e];
    if Cached(buf, b) {
      var j := Slot(buf, b);
      assert Caches(buf'[j], b);
      SlotIs(disk, buf', j);
    } else {
      assert forall j :: 0 <= j < NBUF && j != i ==> buf'[j] == buf[j];
    }
  }

  lemma OwnBlock(disk: Image, buf: seq<Buf>, i: nat, e: Buf)
    requires i < |buf| && e.bno < |disk| && buf[i] == e && Cached(buf, e.bno) && Slot(buf, e.bno) == i
    ensures View(disk, buf, e.bno) == if e.valid then e.data else disk[e.bno]
    ensures Refcnt(buf, e.bno) == e.refcnt && (InUse(buf, e.bno) <==> e.locked && e.valid)
  {
  }

  lemma SameBlocks(disk: Image, buf: seq<Buf>, buf': seq<Buf>, i: nat, e: Buf)
    requires i < |buf'| && e.bno < |disk| && Caches(e, e.bno) && buf'[i] == e
    requires forall b: nat :: b < |disk| && b != e.bno ==> SameBlock(disk, buf, buf', b)
    requires Cached(buf', e.bno) && Slot(buf', e.bno) == i
    ensures CacheOf(disk, buf') == Updated(CacheOf(disk, buf), i, e)
  {
    hide View, Refcnt, InUse, Cached;
    OwnBlock(disk, buf', i, e);
    var a, u := CacheOf(disk, buf'), Updated(CacheOf(disk, buf), i, e);
    forall b: nat | b < |disk|
      ensures a.views[b] == u.views[b] && a.refs[b] == u.refs[b] && (b in a.held <==> b in u.held)
      ensures b in a.held ==> a.held[b] == u.held[b]
    {
      if b != e.bno { assert SameBlock(disk, buf, buf', b); }
    }
    assert a.views == u.views && a.refs == u.refs;
    assert a.held == u.held;
  }

  /** Writing a valid buffer to disk changes no block's value. */
  lemma WriteThrough(disk: Image, buf: seq<Buf>, i: nat)
    requires Coherent(disk, buf) && i < NBUF && buf[i].dev == ROOTDEV && buf[i].valid && buf[i].bno < |disk|
    ensures var disk' := disk[buf[i].bno := buf[i].data];
            Coherent(disk', buf) && CacheOf(disk', buf) == CacheOf(disk, buf).(disk := disk')
  {
    var disk' := disk[buf[i].bno := buf[i].data];
    SlotIs(disk, buf, i);
    forall j | 0 <= j < NBUF ensures BufOk(disk', buf[j]) {
      assert BufOk(disk, buf[j]);
    }
    forall b: nat | b < |disk| ensures View(disk', buf, b) == View(disk, buf, b) { }
    assert CacheOf(disk', buf).views == CacheOf(disk, buf).views;
    assert CacheOf(disk', buf).refs == CacheOf(disk, buf).refs;
    assert CacheOf(disk', buf).held == CacheOf(disk, buf).held;
  }

  /** Recycling an unreferenced buffer for an uncached block changes no block's value. */
  lemma RecycleUpdate(disk: Image, buf: seq<Buf>, i: nat, b: nat, e: Buf)
    requires Coherent(disk, buf) && i < NBUF && buf[i].refcnt == 0
    requires b < |disk| && !Cached(buf, b)
    requires e == Buf(false, ROOTDEV, b, 1, true, buf[i].data)
    ensures Coherent(disk, buf[i := e])
    ensures CacheOf(disk, buf).refs[b] == 0
    ensures CacheOf(disk, buf[i := e]) == CacheOf(disk, buf).(refs := CacheOf(disk, buf).refs[b := 1])
  {
    var buf' := buf[i := e];
    assert forall j :: 0 <= j < NBUF ==> !Caches(buf[j], b);
    assert Coherent(disk, buf');
    SlotIs(disk, buf', i);
    forall c: nat | c < |disk| && c != b ensures SameBlock(disk, buf, buf', c) {
      RecycleOther(disk, buf, i, e, c);
    }
    SameBlocks(disk, buf, buf', i, e);
    Uncached(disk, buf, b);
  }

  lemma RecycleOther(disk: Image, buf: seq<Buf>, i: nat, e: Buf, c: nat)
    requires Coherent(disk, buf) && i < NBUF && buf[i].refcnt == 0 && Coherent(disk, buf[i := e])
    requires c < |disk| && !Caches(e, c)
    ensures SameBlock(disk, buf, buf[i := e], c)
  {
    if Caches(buf[i], c) {
      SlotIs(disk, buf, i);
      var buf' := buf[i := e];
      assert forall j :: 0 <= j < NBUF ==> !Caches(buf'[j], c);
    } else {
      OtherBlock(disk, buf, i, e, c);
    }
  }

  lemma Uncached(disk: Image, buf: seq<Buf>, b: nat)
    requires b < |disk| && !Cached(buf, b)
    ensures var a := CacheOf(disk, buf); a.refs[b] == 0 && a.views[b := disk[b]] == a.views && a.held - {b} == a.held
  {
  }

  /** Blocks that some process references or the log has pinned. */
  ghost function Held(refs: seq<nat>): set<nat> {
    set b | 0 <= b < |refs| && refs[b] > 0
  }

  ghost function Numbers(buf: seq<Buf>, n: nat): set<nat>
    requires n <= |buf|
  {
    set i | 0 <= i < n :: buf[i].bno
  }

  lemma {:induction false} NumbersSize(buf: seq<Buf>, n: nat)
    requires n <= |buf| && forall i, j :: 0 <= i < j < n ==> buf[i].bno != buf[j].bno
    ensures |Numbers(buf, n)| == n
  {
    if n > 0 {
      NumbersSize(buf, n - 1);
      var x := buf[n - 1].bno;
      assert x !in Numbers(buf, n - 1);
      assert Numbers(buf, n) == Numbers(buf, n - 1) + {x} by {
        forall b | b in Numbers(buf, n) ensures b in Numbers(buf, n - 1) + {x} { }
        forall b | b in Numbers(buf, n - 1) ensures b in Numbers(buf, n) { }
        assert x in Numbers(buf, n);
      }
      hide Numbers;
    } else {
      assert Numbers(buf, n) == {};
    }
  }

  /** While fewer than NBUF blocks are held, some buffer can be recycled. */
  lemma SomeFree(disk: Image, buf: seq<Buf>)
    requires Coherent(disk, buf) && |Held(CacheOf(disk, buf).refs)| < NBUF
    ensures !AllBusy(buf)
  {
    if AllBusy(buf) {
      assert forall i :: 0 <= i < NBUF ==> BufOk(disk, buf[i]);
      NumbersSize(buf, NBUF);
      forall b | b in Numbers(buf, NBUF) ensures b in Held(CacheOf(disk, buf).refs) {
        var i :| 0 <= i < NBUF && buf[i].bno == b;
        SlotIs(disk, buf, i);
        assert CacheOf(disk, buf).refs[b] == Refcnt(buf, b);
      }
      Sets.SubsetSize(Numbers(buf, NBUF), Held(CacheOf(disk, buf).refs));
    }
  }

  /** The LRU ring: head, most recently used buffer, ..., least recently used one. */
  ghost predicate Lru(next: Links, prev: Links, order: seq<int>) {
    && IsRing(next, prev, order)
    && |order| == NBUF + 1 && order[0] == HEAD
    && (forall i :: 0 < i <= NBUF ==> 0 <= order[i] < NBUF)
    && (forall b :: 0 <= b < NBUF ==> b in order)
  }

  /** binit: link all buffers behind the head. */
  method BuildRing() returns (next: Links, prev: Links, ghost order: seq<int>)
    ensures Lru(next, prev, order)
  {
    next, prev, order := map[HEAD := HEAD], map[HEAD := HEAD], [HEAD];
    for b := 0 to NBUF
      invariant IsRing(next, prev, order) && |order| == b + 1 && order[0] == HEAD
      invariant forall i :: 0 < i <= b ==> order[i] == b - i
    {
      hide IsRing;
      RingAt(next, prev, order, 0);
      PushRing(next, prev, order, b);
      prev := PushPrev(next, prev, HEAD, b);
      next := PushNext(next, HEAD, b);
      order := PushedFront(order, b);
    }
    forall b | 0 <= b < NBUF ensures b in order {
      assert order[NBUF - b] == b;
    }
  }

  lemma LruAt(next: Links, prev: Links, order: seq<int>, i: nat)
    requires Lru(next, prev, order) && i <= NBUF
    ensures |order| == NBUF + 1 && order[0] == HEAD
    ensures order[i] in next && order[i] in prev && next[order[i]] == After(order, i)
            && prev[order[i]] == Before(order, i)
    ensures if i == 0 then order[i] == HEAD else 0 <= order[i] < NBUF
  {
    RingAt(next, prev, order, i);
  }

  lemma LruFind(next: Links, prev: Links, order: seq<int>, b: nat) returns (i: nat)
    requires Lru(next, prev, order) && b < NBUF
    ensures 0 < i < |order| && order[i] == b
  {
    assert b in order;
    i :| 0 <= i < |order| && order[i] == b;
  }

  /** Look for the block along the ring; None when no buffer caches it. */
  method Lookup(buf: seq<Buf>, next: Links, ghost prev: Links, ghost order: seq<int>, b: nat) returns (r: Option<nat>)
    requires |buf| == NBUF && Lru(next, prev, order)
    ensures r.None? <==> !Cached(buf, b)
    ensures r.Some? ==> r.value < NBUF && Caches(buf[r.value], b)
  {
    hide Lru;
    LruAt(next, prev, order, 0);
    var node := next[HEAD];
    ghost var pos := 1;
    ghost var seen := {};
    while node != HEAD
      invariant 1 <= pos <= NBUF + 1 == |order|
      invariant node == if pos <= NBUF then order[pos] else HEAD
      invariant forall i :: 0 < i < pos ==> order[i] in seen
      invariant forall i :: i in seen && 0 <= i < NBUF ==> !Caches(buf[i], b)
      decreases NBUF + 1 - pos
    {
      LruAt(next, prev, order, pos);
      if Caches(buf[node], b) { return Some(node); }
      seen := seen + {node};
      node := next[node];
      pos := pos + 1;
    }
    LruAt(next, prev, order, if pos <= NBUF then pos else 0);
    forall i | 0 <= i < NBUF ensures !Caches(buf[i], b) {
      var j := LruFind(next, prev, order, i);
    }
    r := None;
  }

  predicate AllBusy(buf: seq<Buf>) {
    forall i :: 0 <= i < |buf| ==> buf[i].refcnt > 0
  }

  /** Nobody references buffer i, and every buffer behind it on the ring is in use. */
  ghost predicate LastUnused(buf: seq<Buf>, order: seq<int>, i: nat) {
    && i < |buf| && buf[i].refcnt == 0
    && exists pos :: 0 < pos < |order| && order[pos] == i
                     && forall j :: pos < j < |order| && 0 <= order[j] < |buf| ==> buf[order[j]].refcnt > 0
  }

  /** The least recently used buffer that nobody references. */
  method LeastRecent(buf: seq<Buf>, ghost next: Links, prev: Links, ghost order: seq<int>)
    returns (r: Option<nat>)
    requires |buf| == NBUF && Lru(next, prev, order)
    ensures r.None? <==> AllBusy(buf)
    ensures r.Some? ==> r.value < NBUF && buf[r.value].refcnt == 0 && LastUnused(buf, order, r.value)
  {
    hide Lru;
    LruAt(next, prev, order, 0);
    var node := prev[HEAD];
    ghost var pos := NBUF;
    while node != HEAD
      invariant 0 <= pos <= NBUF == |order| - 1 && node == order[pos]
      invariant forall j :: pos < j <= NBUF && 0 <= order[j] < NBUF ==> buf[order[j]].refcnt > 0
      decreases pos
    {
      LruAt(next, prev, order, pos);
      if buf[node].refcnt == 0 { return Some(node); }
      node := prev[node];
      pos := pos - 1;
    }
    LruAt(next, prev, order, pos);
    forall i | 0 <= i < NBUF ensures buf[i].refcnt > 0 {
      var j := LruFind(next, prev, order, i);
    }
    r := None;
  }

  /** The order after brelse has moved the buffer at position k to the front. */
  function Moved(order: seq<int>, k: nat): seq<int>
    requires 0 < k < |order|
  {
    [order[0], order[k]] + order[1..k] + order[k + 1..]
  }

  lemma MovedMembers(order: seq<int>, k: nat)
    requires Distinct(order) && 0 < k < |order|
    ensures Moved(order, k) == PushedFront(Without(order, k), order[k])
    ensures forall x :: x in order <==> x in Moved(order, k)
  {
    var w := Without(order, k);
    assert w[1..] == order[1..k] + order[k + 1..];
    assert order == [order[0]] + order[1..k] + [order[k]] + order[k + 1..];
  }

  lemma MovedRing(next: Links, prev: Links, order: seq<int>, k: nat)
    requires IsRing(next, prev, order) && 0 < k < |order|
    ensures var n, p := UnlinkNext(next, prev, order[k]), UnlinkPrev(next, prev, order[k]);
            order[0] in n && IsRing(PushNext(n, order[0], order[k]), PushPrev(n, p, order[0], order[k]),
              Moved(order, k))
  {
    UnlinkRing(next, prev, order, k);
    MovedMembers(order, k);
    PushRing(UnlinkNext(next, prev, order[k]), UnlinkPrev(next, prev, order[k]), Without(order, k), order[k]);
  }

  lemma MovedBounds(order: seq<int>, k: nat)
    requires 0 < k < |order|
    requires forall i :: 0 < i < |order| ==> 0 <= order[i] < NBUF
    ensures |Moved(order, k)| == |order|
    ensures forall i :: 0 < i < |order| ==> 0 <= Moved(order, k)[i] < NBUF
  {
    var m := Moved(order, k);
    assert forall i :: 0 < i < |order| ==>
                       m[i] == if i == 1 then order[k] else if i <= k then order[i - 1] else order[i];
  }

  /** The pointer writes of brelse that move buffer i to the front of the ring. */
  method MoveToFront(next: Links, prev: Links, ghost order: seq<int>, i: nat)
    returns (next': Links, prev': Links, ghost order': seq<int>, ghost k: nat)
    requires Lru(next, prev, order) && i < NBUF
    ensures Lru(next', prev', order')
    ensures 0 < k < |order| && order[k] == i && order' == Moved(order, k)
  {
    k := LruFind(next, prev, order, i);
    MovedRing(next, prev, order, k);
    next', prev' := UnlinkNext(next, prev, i), UnlinkPrev(next, prev, i);
    next', prev' := PushNext(next', HEAD, i), PushPrev(next', prev', HEAD, i);
    order' := Moved(order, k);
    MovedMembers(order, k);
    MovedBounds(order, k);
  }

  /** bget gives block b one more reference; no other block is touched. */
  ghost predicate Obtained(disk: Image, before: seq<Buf>, after: seq<Buf>, b: nat, i: nat) {
    && b < |disk| && i < NBUF == |before| == |after|
    && Coherent(disk, after)
    && after == before[i := after[i]]
    && Caches(after[i], b) && after[i].locked
    // a referenced or pinned buffer keeps its block
    && (before[i].refcnt > 0 ==> Caches(before[i], b))
    && (after[i].valid ==> CacheOf(disk, after) == Referenced(CacheOf(disk, before), b, i))
    && (!after[i].valid ==> CacheOf(disk, after) == Referenced(CacheOf(disk, before), b,
                            i).(held := CacheOf(disk, before).held - {b}))
  }

  function Referenced(a: Cache, b: nat, i: nat): Cache
    requires b < |a.refs|
  {
    a.(refs := a.refs[b := a.refs[b] + 1], held := a.held[b := i])
  }

  /** bget panics exactly if nobody references the block and NBUF others are referenced. */
  lemma CanObtain(disk: Image, buf: seq<Buf>, b: nat)
    requires Coherent(disk, buf) && b < |disk|
    ensures !Cached(buf, b) && AllBusy(buf) <==>
            CacheOf(disk, buf).refs[b] == 0 && |Held(CacheOf(disk, buf).refs)| >= NBUF
  {
    var a := CacheOf(disk, buf);
    if AllBusy(buf) {
      if Cached(buf, b) { SlotIs(disk, buf, Slot(buf, b)); }
      if |Held(a.refs)| < NBUF { SomeFree(disk, buf); }
    } else {
      HeldFew(disk, buf);
    }
  }

  /** A buffer to spare means fewer than NBUF blocks are referenced. */
  lemma HeldFew(disk: Image, buf: seq<Buf>)
    requires Coherent(disk, buf) && !AllBusy(buf)
    ensures |Held(CacheOf(disk, buf).refs)| < NBUF
  {
    var k :| 0 <= k < NBUF && buf[k].refcnt == 0;
    var held := Held(CacheOf(disk, buf).refs);
    var others := set i | 0 <= i < NBUF && i != k :: buf[i].bno;
    forall b | b in held ensures b in others {
      assert CacheOf(disk, buf).refs[b] == Refcnt(buf, b);
      assert Slot(buf, b) != k;
    }
    Sets.SubsetSize(held, others);
    OthersSize(buf, k, NBUF);
  }

  lemma {:induction false} OthersSize(buf: seq<Buf>, k: nat, n: nat)
    requires n <= |buf|
    ensures |set i | 0 <= i < n && i != k :: buf[i].bno| <= if k < n then n - 1 else n
  {
    var s := set i | 0 <= i < n && i != k :: buf[i].bno;
    if n > 0 {
      OthersSize(buf, k, n - 1);
      var r := set i | 0 <= i < n - 1 && i != k :: buf[i].bno;
      if n - 1 == k {
        assert s == r;
      } else {
        assert s == r + {buf[n - 1].bno};
        Sets.UnionSize(r, {buf[n - 1].bno});
      }
    } else {
      assert s == {};
    }
  }

  lemma EmptyCache(disk: Image, buf: seq<Buf>)
    requires |buf| == NBUF && forall i :: 0 <= i < NBUF ==> buf[i].dev == 0 && !buf[i].valid && buf[i].refcnt == 0
                                                            && !buf[i].locked
    ensures Coherent(disk, buf) && CacheOf(disk, buf) == Cache(disk, disk, seq(|disk|, _ => 0), map[])
  {
    assert forall b: nat :: !Cached(buf, b);
    var a := CacheOf(disk, buf);
    assert a.views == disk && a.refs == seq(|disk|, _ => 0) && a.held == map[];
  }

  class Bcache {
    var disk: Image
    var buf: seq<Buf>
    var next: Links
    var prev: Links
    ghost var abs: Cache          // the callers' view of disk and buf
    ghost var trace: seq<Write>   // every block write so far, oldest first
    ghost var order: seq<int>     // the LRU ring: head, most recent, ..., least recent

    ghost predicate Valid()
      reads this
    {
      && Coherent(disk, buf)
      && abs == CacheOf(disk, buf)
      && Lru(next, prev, order)
    }

    /** The caller holds buffer i, which caches block b. */
    ghost predicate Owns(i: nat, b: nat)
      reads this
    {
      b in abs.held && abs.held[b] == i
    }

    constructor (image: Image)
      ensures Valid() && trace == []
      ensures abs == Cache(image, image, seq(|image|, _ => 0), map[])
    {
      hide Lru, Coherent, CacheOf;
      disk, trace := image, [];
      buf := seq(NBUF, _ => Buf(false, 0, 0, 0, false, seq(WORDS, _ => 0)));
      var n, p, o := BuildRing();
      next, prev, order := n, p, o;
      abs := Cache(image, image, seq(|image|, _ => 0), map[]);
      new;
      EmptyCache(disk, buf);
    }

    /** bget: a locked buffer for block b, or None where the kernel panics for lack of buffers. */
    method Get(b: nat) returns (r: Option<nat>)
      requires Coherent(disk, buf) && Lru(next, prev, order) && b < |disk|
      modifies this`buf
      ensures r.None? <==> !old(Cached(buf, b)) && AllBusy(old(buf))
      ensures r.None? ==> buf == old(buf)
      ensures r.Some? ==> Obtained(disk, old(buf), buf, b, r.value)
      ensures r.Some? && !old(Cached(buf, b)) ==> LastUnused(old(buf), order, r.value)
    {
      assert |buf| == NBUF;
      hide *;
      r := Lookup(buf, next, prev, order, b);
      if r.Some? {
        Reference(r.value, b);
        return;
      }
      r := LeastRecent(buf, next, prev, order);
      if r.Some? {
        Recycle(r.value, b);
      }
    }

    method Reference(i: nat, b: nat)
      requires Coherent(disk, buf) && b < |disk| && i < NBUF == |buf| && Caches(buf[i], b)
      modifies this`buf
      ensures Obtained(disk, old(buf), buf, b, i)
    {
      hide Coherent, CacheOf;
      SlotIs(disk, buf, i);
      var e := buf[i].(refcnt := buf[i].refcnt + 1, locked := true);
      SameBlockUpdate(disk, buf, i, e);
      buf := buf[i := e];
      ghost var a := CacheOf(disk, old(buf));
      assert a.views[b := a.views[b]] == a.views;
    }

    method Recycle(i: nat, b: nat)
      requires Coherent(disk, buf) && b < |disk| && i < NBUF == |buf| && buf[i].refcnt == 0 && !Cached(buf, b)
      modifies this`buf
      ensures Obtained(disk, old(buf), buf, b, i)
    {
      hide Coherent;
      var e := Buf(false, ROOTDEV, b, 1, true, buf[i].data);
      RecycleUpdate(disk, buf, i, b, e);
      assert b !in CacheOf(disk, buf).held;
      hide CacheOf, Cached;
      buf := buf[i := e];
      ghost var a := CacheOf(disk, old(buf));
      assert a.held - {b} == a.held;
    }

    /** bread: a locked buffer with the block's current value. */
    method Bread(b: nat) returns (r: Option<nat>)
      requires Valid() && b < |abs.refs| && b !in abs.held
      modifies this`buf, this`abs
      ensures Valid()
      ensures r.None? <==> old(abs).refs[b] == 0 && |Held(old(abs).refs)| >= NBUF
      ensures r.None? ==> abs == old(abs)
      ensures r.Some? ==> abs == Referenced(old(abs), b, r.value)
    {
      hide Coherent, Lru, CacheOf, Cached, AllBusy, Held;
      CanObtain(disk, buf, b);
      r := Get(b);
      if r.Some? {
        if !buf[r.value].valid {
          Fill(r.value, b);
          assert (old(abs).held - {b})[b := r.value] == old(abs).held[b := r.value];
        }
        abs := CacheOf(disk, buf);
      }
    }

    /** Read the block from the disk into its buffer. */
    method Fill(i: nat, b: nat)
      requires Coherent(disk, buf) && b < |disk| && i < NBUF == |buf| && Caches(buf[i], b) && !buf[i].valid
               && buf[i].locked
      modifies this`buf
      ensures Coherent(disk, buf)
      ensures CacheOf(disk, buf) == old(CacheOf(disk, buf)).(held := old(CacheOf(disk, buf)).held[b := i])
    {
      hide Coherent, CacheOf;
      SlotIs(disk, buf, i);
      var e := buf[i].(valid := true, data := disk[b]);
      SameBlockUpdate(disk, buf, i, e);
      ghost var a := CacheOf(disk, buf);
      assert a.views[b := disk[b]] == a.views && a.refs[b := e.refcnt] == a.refs;
      buf := buf[i := e];
    }

    /** Update one held buffer in place. */
    ghost method Refresh(i: nat, b: nat, before: seq<Buf>, e: Buf)
      requires Coherent(disk, before) && abs == CacheOf(disk, before) && Owns(i, b)
      requires i < NBUF == |before| && Caches(before[i], b) && Caches(e, b) && BufOk(disk, e) && b < |disk|
      requires buf == before[i := e]
      modifies this`abs
      ensures Coherent(disk, buf) && abs == CacheOf(disk, buf) && abs == Updated(old(abs), i, e)
    {
      SameBlockUpdate(disk, before, i, e);
      abs := CacheOf(disk, buf);
    }

    /** The data of a held buffer. */
    method Data(i: nat, b: nat) returns (data: Block)
      requires Valid() && Owns(i, b)
      ensures b < |abs.views| && data == abs.views[b]
    {
      HeldAt(disk, buf, b);
      data := buf[i].data;
    }

    /** The holder of a buffer changes its data in memory. */
    method SetData(i: nat, b: nat, data: Block)
      requires Valid() && Owns(i, b)
      modifies this`buf, this`abs
      ensures Valid() && b < |old(abs).views|
      ensures abs == old(abs).(views := old(abs).views[b := data])
    {
      hide Coherent, Lru, CacheOf;
      HeldAt(disk, buf, b);
      var e := buf[i].(data := data);
      buf := buf[i := e];
      Refresh(i, b, old(buf), e);
      assert old(abs).refs[b := e.refcnt] == old(abs).refs && old(abs).held[b := i] == old(abs).held;
    }

    /** bwrite: one block write, of the value the cache holds for b. */
    method Bwrite(i: nat, b: nat)
      requires Valid() && Owns(i, b)
      modifies this`disk, this`trace, this`abs
      ensures Valid() && b < |old(abs).disk|
      ensures abs == old(abs).(disk := old(abs).disk[b := old(abs).views[b]])
      ensures trace == old(trace) + [Write(b, old(abs).views[b])]
    {
      hide Coherent, Lru, CacheOf;
      HeldAt(disk, buf, b);
      WriteThrough(disk, buf, i);
      disk := disk[b := buf[i].data];
      trace := trace + [Write(b, buf[i].data)];
      abs := CacheOf(disk, buf);
    }

    /** brelse: unlock, drop one reference, and on the last one move the buffer to
        the front of the ring. What is dropped last must be what is on disk. */
    method Brelse(i: nat, b: nat)
      requires Valid() && Owns(i, b) && b < |abs.disk|
      requires abs.refs[b] > 1 || abs.views[b] == abs.disk[b]
      modifies this`buf, this`next, this`prev, this`order, this`abs
      ensures Valid()
      ensures old(abs).refs[b] > 0
      ensures abs == old(abs).(refs := old(abs).refs[b := old(abs).refs[b] - 1], held := old(abs).held - {b})
      ensures old(abs).refs[b] == 1 ==> exists k :: 0 < k < |old(order)| && old(order)[k] == i
                                                    && order == Moved(old(order), k)
      ensures old(abs).refs[b] > 1 ==> order == old(order)
    {
      hide Coherent, Lru, CacheOf, Moved;
      HeldAt(disk, buf, b);
      var e := buf[i].(locked := false, refcnt := buf[i].refcnt - 1);
      buf := buf[i := e];
      Refresh(i, b, old(buf), e);
      assert old(abs).views[b := e.data] == old(abs).views;
      if e.refcnt == 0 {
        ghost var k;
        next, prev, order, k := MoveToFront(next, prev, order, i);
      }
    }

    /** bpin and bunpin: the log keeps a modified block in the cache. */
    method Bpin(i: nat, b: nat)
      requires Valid() && Owns(i, b)
      modifies this`buf, this`abs
      ensures Valid() && b < |old(abs).refs|
      ensures abs == old(abs).(refs := old(abs).refs[b := old(abs).refs[b] + 1])
    {
      hide Coherent, Lru, CacheOf;
      HeldAt(disk, buf, b);
      var e := buf[i].(refcnt := buf[i].refcnt + 1);
      buf := buf[i := e];
      Refresh(i, b, old(buf), e);
      assert old(abs).views[b := e.data] == old(abs).views && old(abs).held[b := i] == old(abs).held;
    }

    method Bunpin(i: nat, b: nat)
      requires Valid() && Owns(i, b) && b < |abs.refs| && abs.refs[b] > 1
      modifies this`buf, this`abs
      ensures Valid()
      ensures abs == old(abs).(refs := old(abs).refs[b := old(abs).refs[b] - 1])
    {
      hide Coherent, Lru, CacheOf;
      HeldAt(disk, buf, b);
      var e := buf[i].(refcnt := buf[i].refcnt - 1);
      buf := buf[i := e];
      Refresh(i, b, old(buf), e);
      assert old(abs).views[b := e.data] == old(abs).views && old(abs).held[b := i] == old(abs).held;
    }
  }
}
