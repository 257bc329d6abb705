/**
 The buddy allocator itself: bit vectors in bytes, free lists threaded through the
 free blocks, byte addresses. Every method is tied to the books of BuddySpec.
 */
module Buddy {
  import opened Options
  import opened Bits
  import opened Ring
  import opened Lists
  import opened BuddySpec
  import opened BuddyInit

  const LEAF_SIZE := 16

  function BlkSize(k: nat): (r: nat)
    ensures r > 0
  {
    Pow2(k) * LEAF_SIZE
  }

  /** addr and blk_index */
  function Addr(base: int, x: Blk): int {
    base + x.b * BlkSize(x.k)
  }

  function BlkIndex(base: int, k: nat, p: int): nat
    requires p >= base
  {
    Quotient(p - base, BlkSize(k))
  }

  function Quotient(n: nat, d: nat): nat
    requires d > 0
  {
    n / d
  }

  lemma SizeDoubles(k: nat)
    ensures BlkSize(k + 1) == 2 * BlkSize(k)
  {
  }

  lemma QuotientIs(n: nat, d: nat, q: nat, r: nat)
    requires d > 0 && r < d && n == q * d + r
    ensures Quotient(n, d) == q
  {
    var q', r' := n / d, n % d;
    var a := q' - q;
    assert a * d == q' * d - q * d;
    SmallMultiple(a, d);
  }

  lemma SmallMultiple(a: int, d: int)
    requires d > 0 && -d < a * d < d
    ensures a == 0
  {
    Multiple(a - 1, d);
    Multiple(-a - 1, d);
    assert (a - 1) * d == a * d - d && (-a - 1) * d == -(a * d) - d;
  }

  lemma Multiple(a: int, d: nat)
    ensures a >= 0 ==> a * d >= 0
  {
  }

  lemma HalfQuotient(n: nat, s: nat)
    requires s > 0
    ensures Quotient(n, 2 * s) == Quotient(n, s) / 2
  {
    var q, r := n / s, n % s;
    assert n == q * s + r;
    var h, o := q / 2, q % 2;
    assert q * s == (2 * h + o) * s == h * (2 * s) + o * s;
    assert o * s + r < 2 * s by { assert o == 0 || o == 1; }
    QuotientIs(n, 2 * s, h, o * s + r);
  }

  /** Converting an address back gives the block; one size up, its parent. */
  lemma IndexOfAddr(base: int, x: Blk)
    ensures Addr(base, x) >= base
    ensures BlkIndex(base, x.k, Addr(base, x)) == x.b
    ensures BlkIndex(base, x.k + 1, Addr(base, x)) == x.b / 2
  {
    var s := BlkSize(x.k);
    assert x.b * s >= 0;
    QuotientIs(x.b * s, s, x.b, 0);
    HalfQuotient(x.b * s, s);
    SizeDoubles(x.k);
  }

  lemma AddrLeft(base: int, x: Blk)
    requires x.k > 0
    ensures Addr(base, Left(x)) == Addr(base, x)
    ensures Addr(base, Right(x)) == Addr(base, x) + BlkSize(x.k - 1)
  {
    SizeDoubles(x.k - 1);
    var s := BlkSize(x.k - 1);
    assert x.b * (2 * s) == (2 * x.b) * s;
    assert (2 * x.b + 1) * s == (2 * x.b) * s + s;
  }

  lemma {:induction false} AddrLeftmost(base: int, x: Blk, k: nat)
    requires k <= x.k
    ensures Addr(base, Leftmost(x, k)) == Addr(base, x)
    decreases x.k
  {
    if x.k > k {
      AddrLeft(base, x);
      AddrLeftmost(base, Left(x), k);
    }
  }

  lemma AddrInjective(base: int, x: Blk, y: Blk)
    requires x.k == y.k && Addr(base, x) == Addr(base, y)
    ensures x == y
  {
    IndexOfAddr(base, x);
    IndexOfAddr(base, y);
  }

  // ----- bits and lists against the books -----

  predicate BitAt(bd: Books, alloc: seq<Bytes>, split: seq<Bytes>, x: Blk) {
    Ok(bd.max, x) ==>
      && x.k < |alloc| && x.k < |split| && Has(alloc[x.k], x.b) && (IsSet(alloc[x.k], x.b) <==> x in bd.alloc)
      && (x.k > 0 ==> Has(split[x.k], x.b) && (IsSet(split[x.k], x.b) <==> x in bd.split))
  }

  ghost predicate BitsMatch(bd: Books, alloc: seq<Bytes>, split: seq<Bytes>) {
    && |alloc| == |split| == bd.max + 1
    && forall x {:trigger BitAt(bd, alloc, split, x)} :: BitAt(bd, alloc, split, x)
  }

  lemma BitGive(bd: Books, alloc: seq<Bytes>, split: seq<Bytes>, x: Blk)
    requires BitsMatch(bd, alloc, split)
    ensures |alloc| == |split| == bd.max + 1 && BitAt(bd, alloc, split, x)
  {
  }

  lemma SetAlloc(bd: Books, alloc: seq<Bytes>, split: seq<Bytes>, x: Blk)
    requires BitsMatch(bd, alloc, split) && Ok(bd.max, x)
    ensures x.k < |alloc| && Has(alloc[x.k], x.b)
    ensures BitsMatch(bd.(alloc := bd.alloc + {x}), alloc[x.k := Set(alloc[x.k], x.b)], split)
  {
    var bd' := bd.(alloc := bd.alloc + {x});
    assert BitAt(bd, alloc, split, x);
    var alloc' := alloc[x.k := Set(alloc[x.k], x.b)];
    forall y ensures BitAt(bd', alloc', split, y) {
      assert BitAt(bd, alloc, split, y);
      if Ok(bd.max, y) && y.k == x.k { SetBit(alloc[x.k], x.b, y.b); }
    }
  }

  lemma ClearAlloc(bd: Books, alloc: seq<Bytes>, split: seq<Bytes>, x: Blk)
    requires BitsMatch(bd, alloc, split) && Ok(bd.max, x)
    ensures x.k < |alloc| && Has(alloc[x.k], x.b)
    ensures BitsMatch(bd.(alloc := bd.alloc - {x}), alloc[x.k := Clear(alloc[x.k], x.b)], split)
  {
    var bd' := bd.(alloc := bd.alloc - {x});
    assert BitAt(bd, alloc, split, x);
    var alloc' := alloc[x.k := Clear(alloc[x.k], x.b)];
    forall y ensures BitAt(bd', alloc', split, y) {
      assert BitAt(bd, alloc, split, y);
      if Ok(bd.max, y) && y.k == x.k { ClearBit(alloc[x.k], x.b, y.b); }
    }
  }

  lemma SetSplit(bd: Books, alloc: seq<Bytes>, split: seq<Bytes>, x: Blk)
    requires BitsMatch(bd, alloc, split) && Ok(bd.max, x) && x.k > 0
    ensures x.k < |split| && Has(split[x.k], x.b)
    ensures BitsMatch(bd.(split := bd.split + {x}), alloc, split[x.k := Set(split[x.k], x.b)])
  {
    var bd' := bd.(split := bd.split + {x});
    assert BitAt(bd, alloc, split, x);
    var split' := split[x.k := Set(split[x.k], x.b)];
    forall y ensures BitAt(bd', alloc, split', y) {
      assert BitAt(bd, alloc, split, y);
      if Ok(bd.max, y) && y.k == x.k { SetBit(split[x.k], x.b, y.b); }
    }
  }

  lemma ClearSplit(bd: Books, alloc: seq<Bytes>, split: seq<Bytes>, x: Blk)
    requires BitsMatch(bd, alloc, split) && Ok(bd.max, x) && x.k > 0
    ensures x.k < |split| && Has(split[x.k], x.b)
    ensures BitsMatch(bd.(split := bd.split - {x}), alloc, split[x.k := Clear(split[x.k], x.b)])
  {
    var bd' := bd.(split := bd.split - {x});
    assert BitAt(bd, alloc, split, x);
    var split' := split[x.k := Clear(split[x.k], x.b)];
    forall y ensures BitAt(bd', alloc, split', y) {
      assert BitAt(bd, alloc, split, y);
      if Ok(bd.max, y) && y.k == x.k { ClearBit(split[x.k], x.b, y.b); }
    }
  }

  /** The bits do not depend on the free lists. */
  lemma BitsFree(bd: Books, bd': Books, alloc: seq<Bytes>, split: seq<Bytes>)
    requires BitsMatch(bd, alloc, split) && bd'.max == bd.max && bd'.alloc == bd.alloc && bd'.split == bd.split
    ensures BitsMatch(bd', alloc, split)
  {
    forall y ensures BitAt(bd', alloc, split, y) { assert BitAt(bd, alloc, split, y); }
  }

  predicate NodeAt(free: set<Blk>, base: int, k: nat, a: int) {
    a >= base && a == Addr(base, Blk(k, BlkIndex(base, k, a))) && Blk(k, BlkIndex(base, k, a)) in free
  }

  predicate ListAt(free: set<Blk>, base: int, lists: seq<seq<int>>, x: Blk) {
    x in free ==> x.k < |lists| && Addr(base, x) in lists[x.k]
  }

  /** List k holds exactly the addresses of the free blocks of size k. */
  ghost predicate ListsMatch(free: set<Blk>, base: int, lists: seq<seq<int>>) {
    && (forall k: nat, a {:trigger NodeAt(free, base, k, a)} :: k < |lists| && a in lists[k] ==>
                                                                NodeAt(free, base, k, a))
    && (forall x {:trigger ListAt(free, base, lists, x)} :: ListAt(free, base, lists, x))
  }

  lemma NodeGive(free: set<Blk>, base: int, lists: seq<seq<int>>, k: nat, a: int)
    requires ListsMatch(free, base, lists) && k < |lists| && a in lists[k]
    ensures NodeAt(free, base, k, a)
  {
  }

  lemma ListPushed(free: set<Blk>, base: int, lists: seq<seq<int>>, x: Blk)
    requires ListsMatch(free, base, lists) && x.k < |lists|
    ensures ListsMatch(free + {x}, base, lists[x.k := [Addr(base, x)] + lists[x.k]])
  {
    var free', lists' := free + {x}, lists[x.k := [Addr(base, x)] + lists[x.k]];
    forall k: nat, a | k < |lists'| && a in lists'[k] ensures NodeAt(free', base, k, a) {
      if a in lists[k] { assert NodeAt(free, base, k, a); } else { IndexOfAddr(base, x); }
    }
    forall y ensures ListAt(free', base, lists', y) { assert ListAt(free, base, lists, y); }
  }

  lemma ListRemoved(free: set<Blk>, base: int, lists: seq<seq<int>>, x: Blk, i: nat)
    requires ListsMatch(free, base, lists) && x.k < |lists| && i < |lists[x.k]| && lists[x.k][i] == Addr(base, x)
    requires Distinct(lists[x.k])
    ensures ListsMatch(free - {x}, base, lists[x.k := Without(lists[x.k], i)])
  {
    var free', lists' := free - {x}, lists[x.k := Without(lists[x.k], i)];
    DistinctWithout(lists[x.k], i);
    forall k: nat, a | k < |lists'| && a in lists'[k] ensures NodeAt(free', base, k, a) {
      assert NodeAt(free, base, k, a);
      assert Blk(k, BlkIndex(base, k, a)) == x ==> a == Addr(base, x);
    }
    forall y ensures ListAt(free', base, lists', y) {
      assert ListAt(free, base, lists, y);
      if y in free' && y.k == x.k && Addr(base, y) == Addr(base, x) { AddrInjective(base, x, y); }
    }
  }

  lemma Position(l: seq<int>, a: int) returns (i: nat)
    requires a in l
    ensures i < |l| && l[i] == a
  {
    i :| 0 <= i < |l| && l[i] == a;
  }

  lemma ListDistinct(next: Links, prev: Links, heads: seq<int>, lists: seq<seq<int>>, owner: map<int, nat>, k: nat)
    requires AllOk(next, prev, heads, lists, owner) && k < |heads|
    ensures |heads| == |lists| && Distinct(lists[k])
  {
    hide AllOk, IsRing, Distinct;
    OwnsCycle(next, prev, heads, lists, owner, k);
    var c := Cycle(heads, lists, k);
    RingDistinct(next, prev, c);
    TailDistinct(heads[k], lists[k]);
  }

  lemma TailDistinct(h: int, l: seq<int>)
    requires Distinct([h] + l)
    ensures Distinct(l)
  {
    forall i, j | 0 <= i < j < |l| ensures l[i] != l[j] { Different([h] + l, i + 1, j + 1); }
  }

  // ----- addresses of units are distinct -----

  function LeafAt(base: int, a: int): Blk
    requires a >= base
  {
    Blk(0, (a - base) / LEAF_SIZE)
  }

  lemma LeafOf(max: nat, base: int, x: Blk)
    requires Ok(max, x)
    ensures Addr(base, x) >= base && Within(LeafAt(base, Addr(base, x)), x)
  {
    AddrLeftmost(base, x, 0);
    LeftmostWithin(max, x, 0);
    IndexOfAddr(base, Leftmost(x, 0));
    assert BlkSize(0) == LEAF_SIZE;
  }

  lemma SameAddress(bd: Books, live: set<Blk>, marks: set<Blk>, base: int, x: Blk, y: Blk)
    requires Inv(bd, live, marks) && Unit(bd, live, marks, x) && Unit(bd, live, marks, y)
             && Addr(base, x) == Addr(base, y)
    ensures x == y
  {
    UnitFacts(bd, live, marks, x);
    UnitFacts(bd, live, marks, y);
    LeafOf(bd.max, base, x);
    LeafOf(bd.max, base, y);
    var l := LeafAt(base, Addr(base, x));
    if x.k <= y.k { OneUnit(bd, live, marks, l, x, y); } else { OneUnit(bd, live, marks, l, y, x); }
  }

  /** The list heads sit in reserved memory. */
  ghost predicate HeadsReserved(base: int, heads: seq<int>, marks: set<Blk>) {
    forall k :: 0 <= k < |heads| ==> heads[k] >= base && (heads[k] - base) % LEAF_SIZE == 0
                                     && LeafAt(base, heads[k]) in marks
  }

  lemma NotHead(bd: Books, live: set<Blk>, marks: set<Blk>, base: int, x: Blk, h: int)
    requires Inv(bd, live, marks) && x in bd.free
    requires h >= base && (h - base) % LEAF_SIZE == 0 && LeafAt(base, h) in marks
    ensures Addr(base, x) != h
  {
    var m := LeafAt(base, h);
    assert Addr(base, m) == h by { assert BlkSize(0) == LEAF_SIZE; }
    assert At(bd, x);
    assert m in bd.alloc - bd.split;
    if Addr(base, x) == h { SameAddress(bd, live, marks, base, x, m); }
  }

  lemma NotNode(bd: Books, live: set<Blk>, marks: set<Blk>, base: int, free: set<Blk>, x: Blk, lists: seq<seq<int>>,
                k: nat)
    requires Inv(bd, live, marks) && x in bd.free && x !in free && free <= bd.free
    requires ListsMatch(free, base, lists) && k < |lists|
    ensures Addr(base, x) !in lists[k]
  {
    if Addr(base, x) in lists[k] {
      NodeGive(free, base, lists, k, Addr(base, x));
      SameAddress(bd, live, marks, base, x, Blk(k, BlkIndex(base, k, Addr(base, x))));
    }
  }

  /** A block about to be freed is not linked anywhere yet. */
  lemma NotLinked(bd: Books, live: set<Blk>, marks: set<Blk>, base: int, free: set<Blk>, x: Blk,
                  next: Links, prev: Links, heads: seq<int>, lists: seq<seq<int>>, owner: map<int, nat>)
    requires Inv(bd, live, marks) && x in bd.free && x !in free && free <= bd.free
    requires AllOk(next, prev, heads, lists, owner) && ListsMatch(free, base, lists)
             && HeadsReserved(base, heads, marks)
    ensures Addr(base, x) !in owner
  {
    var a := Addr(base, x);
    if a in owner {
      var k := owner[a];
      NotHead(bd, live, marks, base, x, heads[k]);
      NotNode(bd, live, marks, base, free, x, lists, k);
    }
  }

  /** firstk: the smallest size that holds n bytes. With n at most 2^63 the doubling
      of a 64-bit size cannot wrap to zero. */
  method FirstK(n: nat) returns (k: nat)
    requires n <= 0x8000_0000_0000_0000
    ensures BlkSize(k) >= n && (k > 0 ==> BlkSize(k - 1) < n)
  {
    k := 0;
    var size := LEAF_SIZE;
    while size < n
      invariant size == BlkSize(k) && (k > 0 ==> BlkSize(k - 1) < n) && 0 < size <= 0xFFFF_FFFF_FFFF_FFFF
      decreases n - size
    {
      SizeDoubles(k);
      k := k + 1;
      size := size * 2;
    }
  }

  // ----- arithmetic of bd_init -----

  /** ROUNDUP for positive n */
  function RoundUp(n: nat, d: nat): nat
    requires n > 0 && d > 0
  {
    (Quotient(n - 1, d) + 1) * d
  }

  lemma RoundUpIs(n: nat, d: nat)
    requires n > 0 && d > 0
    ensures n <= RoundUp(n, d) < n + d
    ensures Quotient(RoundUp(n, d), d) * d == RoundUp(n, d)
  {
    var q, r := (n - 1) / d, (n - 1) % d;
    assert n - 1 == q * d + r;
    assert (q + 1) * d == q * d + d;
    QuotientIs((q + 1) * d, d, q + 1, 0);
  }

  function Log2(n: nat): nat {
    if n <= 1 then 0 else 1 + Log2(n / 2)
  }

  lemma {:induction false} Log2Is(n: nat)
    ensures n < Pow2(Log2(n) + 1) && (n > 0 ==> Pow2(Log2(n)) <= n)
  {
    if n > 1 {
      Log2Is(n / 2);
      assert Pow2(Log2(n)) == 2 * Pow2(Log2(n / 2)) && Pow2(Log2(n) + 1) == 2 * Pow2(Log2(n));
    }
  }

  /** The largest size for a heap of n bytes. */
  function MaxSize(n: nat): nat {
    var k := Log2(n / LEAF_SIZE);
    if n > BlkSize(k) then k + 1 else k
  }

  /** Bytes of one bit vector; of the alloc vectors below size k; of the split vectors below size k. */
  function VectorBytes(max: nat, k: nat): nat
    requires k <= max
  {
    RoundUp(Pow2(max - k), 8) / 8
  }

  function AllocBytes(max: nat, k: nat): nat
    requires k <= max + 1
  {
    if k == 0 then 0 else AllocBytes(max, k - 1) + VectorBytes(max, k - 1)
  }

  function SplitBytes(max: nat, k: nat): nat
    requires k <= max + 1
  {
    if k <= 1 then 0 else SplitBytes(max, k - 1) + VectorBytes(max, k - 1)
  }

  const SZ_INFO := 32

  /** Metadata, in smallest blocks: a record and an alloc vector for every size, and a
      split vector for every size but the smallest. */
  function MetaLeaves(max: nat): nat {
    Quotient(RoundUp(SZ_INFO * (max + 1) + AllocBytes(max, max + 1) + SplitBytes(max, max + 1), LEAF_SIZE), LEAF_SIZE)
  }

  /** The memory [start, end) keeps bd_init within its tables. */
  predicate Ranged(start: int, end: int) {
    && start > 0
    && var b := RoundUp(start, LEAF_SIZE);
       && b < end
       && var max := MaxSize(end - b); InBounds(max, MetaLeaves(max), (end - b) / LEAF_SIZE)
  }

  /** And no size has bd_initfree visit one pair twice. */
  predicate Suitable(start: int, end: int) {
    && Ranged(start, end)
    && var b := RoundUp(start, LEAF_SIZE);
       var max := MaxSize(end - b); PairsOnce(max, MetaLeaves(max), (end - b) / LEAF_SIZE)
  }

  /** The panic of bd_init: the free blocks do not add up to what lies between the reserved ranges. */
  predicate TotalWrong(start: int, end: int)
    requires Ranged(start, end)
  {
    var b := RoundUp(start, LEAF_SIZE);
    var max, n := MaxSize(end - b), (end - b) / LEAF_SIZE;
    Total(MetaLeaves(max), n, max) != n - MetaLeaves(max)
  }

  /** It is met exactly when some size has its two pairs coincide. */
  lemma PanicCondition(start: int, end: int)
    requires Ranged(start, end)
    ensures TotalWrong(start, end) <==> !Suitable(start, end)
  {
    hide MetaLeaves, MaxSize, RoundUp, Total;
    var b := RoundUp(start, LEAF_SIZE);
    var max, n := MaxSize(end - b), (end - b) / LEAF_SIZE;
    TotalCondition(max, MetaLeaves(max), n);
  }

  /** 320 bytes from address 16 on: 13 of 20 leaves are metadata, and at size 2 the pair of blocks 4 and 5 is visited
      twice. */
  lemma PanicExample()
    ensures Ranged(16, 336) && TotalWrong(16, 336)
  {
    hide MetaLeaves, MaxSize, RoundUp, Total, Twice, Pow2;
    ExampleSizes(16, 320, 4);
    ExampleMeta();
    ExampleTwice();
    assert !Suitable(16, 336);
    PanicCondition(16, 336);
  }

  lemma ExampleSizes(a: nat, n: nat, k: nat)
    requires a == 16 && n == 320 && k == 4
    ensures RoundUp(a, LEAF_SIZE) == a && MaxSize(n) == k + 1 && Pow2(k) == 16 && Pow2(k + 1) == 32
  {
    hide RoundUp;
    Exactly(a, LEAF_SIZE, 1);
    assert Pow2(k - 2) == 4 && Pow2(k - 1) == 8;
    Log2Is(n / LEAF_SIZE);
    var l := Log2(n / LEAF_SIZE);
    if l > k { Pow2Grows(k + 1, l); }
    if l < k { Pow2Grows(l + 1, k); }
  }

  lemma {:induction false} Pow2Grows(j: nat, k: nat)
    requires j <= k
    ensures Pow2(j) <= Pow2(k)
  {
    if j < k { Pow2Grows(j, k - 1); }
  }

  lemma ExampleTwice()
    ensures Twice(13, 20, 2)
  {
    assert Ceil(13, 1) == 7 && Floor(20, 1) == 10;
  }

  lemma ExampleMeta()
    ensures MetaLeaves(5) == 13
  {
    hide VectorBytes, RoundUp;
    ExampleVectors();
    assert AllocBytes(5, 1) == 4 && AllocBytes(5, 2) == 6;
    assert AllocBytes(5, 3) == 7 && AllocBytes(5, 4) == 8;
    assert AllocBytes(5, 5) == 9 && AllocBytes(5, 6) == 10;
    assert SplitBytes(5, 2) == 2 && SplitBytes(5, 3) == 3;
    assert SplitBytes(5, 4) == 4 && SplitBytes(5, 5) == 5;
    assert SplitBytes(5, 6) == 6;
    Exactly(208, 16, 13);
    QuotientIs(208, 16, 13, 0);
  }

  lemma ExampleVectors()
    ensures VectorBytes(5, 0) == 4 && VectorBytes(5, 1) == 2
    ensures forall k :: 2 <= k <= 5 ==> VectorBytes(5, k) == 1
  {
    hide RoundUp;
    assert Pow2(1) == 2 && Pow2(2) == 4 && Pow2(3) == 8;
    assert Pow2(4) == 16 && Pow2(5) == 32;
    Exactly(32, 8, 4);
    Exactly(16, 8, 2);
    forall k | 2 <= k <= 5 ensures VectorBytes(5, k) == 1 {
      assert Pow2(5 - k) in {1, 2, 4, 8};
      Exactly(Pow2(5 - k), 8, 1);
    }
  }

  lemma Exactly(n: nat, d: nat, q: nat)
    requires d > 0 && q > 0 && (q - 1) * d < n <= q * d
    ensures RoundUp(n, d) == q * d
  {
    QuotientIs(n - 1, d, q - 1, n - 1 - (q - 1) * d);
  }

  lemma MetaAtLeast(max: nat)
    ensures MetaLeaves(max) >= 2 * (max + 1)
  {
    var n := SZ_INFO * (max + 1) + AllocBytes(max, max + 1) + SplitBytes(max, max + 1);
    RoundUpIs(n, LEAF_SIZE);
  }

  lemma SuitableLayout(start: int, end: int)
    requires Suitable(start, end)
    ensures var b := RoundUp(start, LEAF_SIZE);
            var max := MaxSize(end - b);
            Layout(max, MetaLeaves(max), (end - b) / LEAF_SIZE)
  {
  }

  // ----- the allocator -----

  class Allocator {
    var nsizes: nat
    var base: int
    var alloc: seq<Bytes>
    var split: seq<Bytes>
    const lst: ListHeap
    ghost var bd: Books
    ghost var live: set<Blk>
    ghost var marks: set<Blk>

    ghost predicate Valid()
      reads this, lst
    {
      && nsizes == bd.max + 1
      && BitsMatch(bd, alloc, split)
      && lst.Valid() && |lst.heads| == nsizes
      && ListsMatch(bd.free, base, lst.lists)
      && Inv(bd, live, marks) && HeadsReserved(base, lst.heads, marks)
    }

    constructor ()
      ensures fresh(lst) && lst.Valid() && lst.heads == [] && lst.lists == [] && lst.owner == map[]
    {
      lst := new ListHeap();
    }

    // ----- initialisation -----

    /** The bits and lists agree with the books, which need not satisfy the invariant yet. */
    ghost predicate Consistent()
      reads this, lst
    {
      && nsizes == bd.max + 1
      && BitsMatch(bd, alloc, split)
      && lst.Valid() && |lst.heads| == nsizes
      && ListsMatch(bd.free, base, lst.lists)
    }

    /** lst_init for every size's free list. */
    method MakeLists()
      requires lst.Valid() && lst.heads == [] && lst.lists == [] && lst.owner == map[]
      modifies lst
      ensures lst.Valid() && |lst.heads| == |lst.lists| == nsizes
      ensures forall k :: 0 <= k < nsizes ==> lst.heads[k] == base + SZ_INFO * k && lst.lists[k] == []
    {
      hide AllOk;
      for k := 0 to nsizes
        invariant lst.Valid() && |lst.heads| == |lst.lists| == k
        invariant forall j :: 0 <= j < k ==> lst.heads[j] == base + SZ_INFO * j && lst.lists[j] == []
        invariant forall x :: x in lst.owner ==> x < base + SZ_INFO * k
      {
        lst.LstInit(base + SZ_INFO * k);
      }
    }

    /** The part of bd_init that lays out the size records and zeroed bit vectors. */
    method MakeTables() returns (p: int)
      requires nsizes > 0 && base > 0 && Quotient(base, LEAF_SIZE) * LEAF_SIZE == base
      requires lst.Valid() && lst.heads == [] && lst.lists == [] && lst.owner == map[]
      modifies this`alloc, this`split, this`bd, lst
      ensures Consistent() && bd == Books(nsizes - 1, {}, {}, {})
      ensures p == base + MetaLeaves(nsizes - 1) * LEAF_SIZE
      ensures forall k :: 0 <= k < |lst.heads| ==> lst.heads[k] == base + SZ_INFO * k
    {
      hide AllOk, RoundUp, Pow2, AllocBytes, SplitBytes, VectorBytes, MetaLeaves, BitsMatch, ListsMatch, Quotient;
      ghost var max := nsizes - 1;
      p := base + SZ_INFO * nsizes;
      MakeLists();
      var bytes;
      alloc, bytes := MakeVectors(nsizes, 0);
      p := p + bytes;
      split, bytes := MakeVectors(nsizes, 1);
      p := p + bytes;
      RoundUpShift(base, p - base);
      p := RoundUp(p, LEAF_SIZE);
      MetaIs(max);
      bd := Books(max, {}, {}, {});
      TablesConsistent(bd, alloc, split, base, lst.lists);
    }

    /** One step of bd_mark's inner loop. */
    method MarkBlock(k: nat, bi: nat)
      requires Consistent() && Ok(bd.max, Blk(k, bi))
      modifies this`alloc, this`split, this`bd
      ensures Consistent()
      ensures bd == old(bd).(alloc := old(bd).alloc + {Blk(k, bi)}, split := if k > 0
              then old(bd).split + {Blk(k, bi)} else old(bd).split)
    {
      hide BitsMatch, ListsMatch, AllOk, Ok, Set;
      ghost var x := Blk(k, bi);
      if k > 0 {
        SetSplit(bd, alloc, split, x);
        split := split[k := Set(split[k], bi)];
        bd := bd.(split := bd.split + {x});
      }
      SetAlloc(bd, alloc, split, x);
      alloc := alloc[k := Set(alloc[k], bi)];
      bd := bd.(alloc := bd.alloc + {x});
    }

    /** bd_mark: set the bits of every block, of every size, that overlaps [start, stop). */
    method Mark(start: int, stop: int, ghost s: nat, ghost e: nat)
      requires Consistent() && start == base + s * LEAF_SIZE && stop == base + e * LEAF_SIZE && s <= e <= Pow2(bd.max)
      modifies this`alloc, this`split, this`bd
      ensures Consistent() && bd.max == old(bd).max && bd.free == old(bd).free
      ensures TouchedAll(old(bd), bd, s, e, nsizes, 0)
    {
      hide BitsMatch, ListsMatch, AllOk, Ok, Touched, TouchedAll, Ceil, Floor, BlkIndex, BlkIndexNext, Pow2;
      TouchedStart(bd, s, e);
      for k := 0 to nsizes
        invariant Consistent() && bd.max == old(bd).max && bd.free == old(bd).free
        invariant TouchedAll(old(bd), bd, s, e, k, 0)
      {
        MarkBounds(bd.max, base, s, e, k);
        var bi, bj := BlkIndex(base, k, start), BlkIndexNext(base, k, stop);
        TouchedEnter(old(bd), bd, s, e, k, bi);
        while bi < bj
          invariant Consistent() && bd.max == old(bd).max && bd.free == old(bd).free
          invariant bi >= Floor(s, k) && TouchedAll(old(bd), bd, s, e, k, bi)
        {
          MarkOk(bd.max, e, k, bi);
          TouchedStep(old(bd), bd, s, e, k, bi);
          MarkBlock(k, bi);
          bi := bi + 1;
        }
        TouchedLeave(old(bd), bd, s, e, k, bi);
      }
    }

    /** Put block b of size k on its free list. `all` are the books initialisation ends with. */
    method PushFree(k: nat, b: nat, ghost all: Books)
      requires Consistent() && k <= bd.max
      requires Inv(all, {}, Leaves(all)) && HeadsReserved(base, lst.heads, Leaves(all))
      requires bd.free <= all.free && Blk(k, b) in all.free && Blk(k, b) !in bd.free
      modifies this`bd, lst
      ensures Consistent() && lst.heads == old(lst.heads)
      ensures bd == old(bd).(free := old(bd).free + {Blk(k, b)})
    {
      hide BitsMatch, ListsMatch, AllOk, Inv, HeadsReserved, Leaves, BlkSize, Addr;
      ghost var y := Blk(k, b);
      NotLinked(all, {}, Leaves(all), base, bd.free, y, lst.next, lst.prev, lst.heads, lst.lists, lst.owner);
      Lengths(lst.next, lst.prev, lst.heads, lst.lists, lst.owner);
      ListPushed(bd.free, base, lst.lists, y);
      AddrIs(base, y);
      lst.LstPush(k, base + b * BlkSize(k));
      BitsFree(bd, bd.(free := bd.free + {y}), alloc, split);
      bd := bd.(free := bd.free + {y});
    }

    /** bd_initfree_pair: when exactly one block of the pair is allocated, free the other. */
    method InitFreePair(k: nat, bi: nat, ghost all: Books) returns (free: nat)
      requires Consistent() && Ok(bd.max, Blk(k, bi)) && k < bd.max
      requires Inv(all, {}, Leaves(all)) && HeadsReserved(base, lst.heads, Leaves(all))
      requires bd.free <= all.free && FreeOfPair(bd, Blk(k, bi)) <= all.free && FreeOfPair(bd, Blk(k, bi)) !! bd.free
      modifies this`bd, lst
      ensures Consistent() && lst.heads == old(lst.heads)
      ensures bd == old(bd).(free := old(bd).free + FreeOfPair(old(bd), Blk(k, bi)))
      ensures free == if FreeOfPair(old(bd), Blk(k, bi)) == {} then 0 else BlkSize(k)
    {
      hide BitsMatch, ListsMatch, AllOk, Ok, Inv, HeadsReserved, Leaves, BlkSize, IsSet, Buddy, FreeOfPair;
      ghost var x := Blk(k, bi);
      PairIs(bd, x);
      BitGive(bd, alloc, split, x);
      BitGive(bd, alloc, split, Buddy(x));
      var buddy := if bi % 2 == 0 then bi + 1 else bi - 1;
      free := 0;
      if IsSet(alloc[k], bi) != IsSet(alloc[k], buddy) {
        free := BlkSize(k);
        PushFree(k, if IsSet(alloc[k], bi) then buddy else bi, all);
      }
    }

    /** bd_initfree */
    method InitFree(left: int, right: int, ghost meta: nat, ghost end: nat) returns (free: nat)
      requires Consistent() && Marked(bd, meta, end) && Layout(bd.max, meta, end) && bd.free == {}
      requires left == base + meta * LEAF_SIZE && right == base + end * LEAF_SIZE
      requires HeadsReserved(base, lst.heads, Leaves(bd))
      modifies this`bd, lst
      ensures Consistent() && lst.heads == old(lst.heads)
      ensures bd == old(bd).(free := Freed(old(bd), meta, end, bd.max))
      ensures free == Total(meta, end, bd.max) * LEAF_SIZE
    {
      hide BitsMatch, ListsMatch, AllOk, Ok, Inv, HeadsReserved, Leaves, BlkSize, Addr, Marked, Layout, Ceil, Floor,
           BlkIndex, BlkIndexNext, FreeOfPair, Total, Freed;
      ghost var bd0 := bd;
      ghost var all := bd.(free := Freed(bd, meta, end, bd.max));
      FinalInv(bd, meta, end);
      FreedNone(bd, meta, end);
      LeavesSame(bd, all);
      free := 0;
      for k := 0 to nsizes - 1
        invariant Consistent() && lst.heads == old(lst.heads)
        invariant bd == bd0.(free := Freed(bd0, meta, end, k))
        invariant free == Total(meta, end, k) * LEAF_SIZE
      {
        MarkIndices(base, meta, k);
        MarkIndices(base, end, k);
        var left', right' := BlkIndexNext(base, k, left), BlkIndex(base, k, right);
        InitRound(bd0, meta, end, k);
        PairSame(bd0, bd, Blk(k, left'));
        PairSame(bd0, bd, Blk(k, right'));
        var f := InitFreePair(k, left', all);
        free := free + f;
        if right' > left' {
          PairSame(bd0, bd, Blk(k, right'));
          f := InitFreePair(k, right', all);
          free := free + f;
        }
      }
    }

    /** bd_init. The result says whether its final check of the total passes. */
    method Init(start: int, end: int) returns (ok: bool)
      requires Suitable(start, end)
      requires lst.Valid() && lst.heads == [] && lst.lists == [] && lst.owner == map[]
      modifies this, lst
      ensures ok && Valid() && live == {} && base == RoundUp(start, LEAF_SIZE)
      // reserved: the metadata, and whatever lies past the last whole smallest block
      ensures forall b: nat :: Blk(0, b) in marks <==>
                               b < Pow2(bd.max) && (b < MetaLeaves(bd.max) || b >= (end - base) / LEAF_SIZE)
    {
      hide BitsMatch, ListsMatch, AllOk, Ok, Inv, HeadsReserved, BlkSize, Addr, Marked, Layout, Ceil, Floor, FreeOfPair,
           Total, Freed, MetaLeaves, RoundUp, Log2, TouchedAll, Pow2, Suitable, LeafAt, Leaves, PairsOnce;
      SuitableStart(start, end);
      base := RoundUp(start, LEAF_SIZE);
      var log := ComputeLog2((end - base) / LEAF_SIZE);
      nsizes := log + 1;
      if end - base > BlkSize(nsizes - 1) {
        nsizes := nsizes + 1;
      }
      var p := MakeTables();
      ghost var max, meta, stop := bd.max, MetaLeaves(bd.max), (end - base) / LEAF_SIZE;
      SuitableLayout(start, end);
      LayoutFacts(max, meta, stop);
      ghost var bd0 := bd;
      Mark(base, p, 0, meta);                              // bd_mark_data_structures
      ghost var bd1 := bd;
      BlkSizeIs(max);
      var heap := BlkSize(nsizes - 1);
      var unavailable := heap - (end - base);
      if unavailable > 0 { UnavailableIs(Pow2(max), end - base); unavailable := RoundUp(unavailable, LEAF_SIZE); }
      var bdEnd := base + heap - unavailable;
      Mark(bdEnd, base + heap, stop, Pow2(max));           // bd_mark_unavailable
      BothMarked(bd0, bd1, bd, meta, stop);
      HeadsMarked(bd, base, lst.heads, meta, stop);
      ghost var bd2 := bd;
      var free := InitFree(p, bdEnd, meta, stop);
      TotalCondition(max, meta, stop);
      LayoutOnce(max, meta, stop);
      FinalInv(bd2, meta, stop);
      LeavesAre(bd2, meta, stop);
      LeavesSame(bd2, bd);
      live, marks := {}, Leaves(bd);
      ok := free == heap - (p - base) - unavailable;
    }

    /** bd_malloc's pop: take the first block of a non-empty free list and mark it allocated. */
    method Pop(k: nat) returns (p: int, ghost x: Blk)
      requires Valid() && k < nsizes && k < |lst.lists| && lst.lists[k] != []
      modifies this, lst
      ensures Valid() && base == old(base) && nsizes == old(nsizes) && marks == old(marks)
      ensures x in old(bd).free && x.k == k && p == Addr(base, x)
      ensures bd == Take(old(bd), x) && live == old(live) + {x}
      ensures p == old(lst.lists)[k][0] && lst.lists == old(lst.lists)[k := old(lst.lists)[k][1..]]
    {
      hide Inv, BitsMatch, ListsMatch, HeadsReserved, AllOk, Addr, BlkIndex, Ok, Distinct, Set;
      ghost var free, l := bd.free, lst.lists[k];
      NodeGive(free, base, lst.lists, k, l[0]);
      ListDistinct(lst.next, lst.prev, lst.heads, lst.lists, lst.owner, k);
      x := Blk(k, BlkIndex(base, k, l[0]));
      FreeOk(bd, live, marks, x);
      ListRemoved(free, base, lst.lists, x, 0);
      TailIs(l);
      p := lst.LstPop(k);
      TakeInv(bd, live, marks, x);
      SetAlloc(bd, alloc, split, x);
      IndexOfAddr(base, x);
      alloc := alloc[k := Set(alloc[k], BlkIndex(base, k, p))];
      BitsFree(bd.(alloc := bd.alloc + {x}), Take(bd, x), alloc, split);
      bd, live := Take(bd, x), live + {x};
    }

    /** bd_malloc's loop body: split the block at p and free its second half. */
    method SplitBlock(k: nat, p: int, ghost x: Blk)
      requires Valid() && 0 < k < nsizes && x in live && x.k == k && p == Addr(base, x)
      modifies this, lst
      ensures Valid() && base == old(base) && nsizes == old(nsizes) && marks == old(marks)
      ensures bd == Halve(old(bd), x) && live == old(live) - {x} + {Left(x)} && p == Addr(base, Left(x))
      ensures k <= |old(lst.lists)| && lst.lists
              == old(lst.lists)[k - 1 := [Addr(base, Right(x))] + old(lst.lists)[k - 1]]
    {
      hide Inv, BitsMatch, ListsMatch, HeadsReserved, AllOk, Addr, BlkIndex, Ok, Set;
      ghost var bd0 := bd;
      LiveOk(bd, live, marks, x);
      AddrLeft(base, x);
      IndexOfAddr(base, x);
      IndexOfAddr(base, Left(x));
      HalveInv(bd, live, marks, x);
      HalveFresh(bd, live, marks, x);
      NotLinked(Halve(bd, x), live - {x} + {Left(x)}, marks, base, bd.free, Right(x), lst.next, lst.prev, lst.heads,
        lst.lists, lst.owner);
      var q := p + BlkSize(k - 1);
      SetSplit(bd, alloc, split, x);
      split := split[k := Set(split[k], BlkIndex(base, k, p))];
      bd := bd.(split := bd.split + {x});
      SetAlloc(bd, alloc, split, Left(x));
      alloc := alloc[k - 1 := Set(alloc[k - 1], BlkIndex(base, k - 1, p))];
      bd := bd.(alloc := bd.alloc + {Left(x)});
      Lengths(lst.next, lst.prev, lst.heads, lst.lists, lst.owner);
      ListPushed(bd.free, base, lst.lists, Right(x));
      lst.LstPush(k - 1, q);
      BitsFree(bd, Halve(bd0, x), alloc, split);
      bd, live := Halve(bd0, x), live - {x} + {Left(x)};
    }

    /** bd_free's loop body: the buddy is free, so take it off its list and merge. */
    method MergeBlock(k: nat, p: int, ghost x: Blk) returns (p': int)
      requires Valid() && x in live && x.k == k && p == Addr(base, x) && Buddy(x) !in bd.alloc
      modifies this, lst
      ensures Valid() && base == old(base) && nsizes == old(nsizes) && marks == old(marks)
      ensures bd == Merge(old(bd), x) && live == old(live) - {x} + {Parent(x)} && p' == Addr(base, Parent(x))
    {
      hide Inv, BitsMatch, ListsMatch, HeadsReserved, AllOk, Addr, BlkIndex, Ok, Set, Clear, Unoccupied;
      ghost var bd0 := bd;
      LiveOk(bd, live, marks, x);
      IndexOfAddr(base, x);
      IndexOfAddr(base, Buddy(x));
      IndexOfAddr(base, Parent(x));
      ParentAddr(base, x);
      MergeInv(bd, live, marks, x);
      var bi := BlkIndex(base, k, p);
      var buddy := if bi % 2 == 0 then bi + 1 else bi - 1;
      ClearAlloc(bd, alloc, split, x);
      alloc := alloc[k := Clear(alloc[k], bi)];
      bd := bd.(alloc := bd.alloc - {x});
      var q := base + buddy * BlkSize(k);
      AddrIs(base, Buddy(x));
      OnItsList(bd.free, base, lst.lists, Buddy(x));
      ListDistinct(lst.next, lst.prev, lst.heads, lst.lists, lst.owner, k);
      ghost var i := Position(lst.lists[k], q);
      ListRemoved(bd.free, base, lst.lists, Buddy(x), i);
      lst.LstRemove(q, k, i);
      p' := if buddy % 2 == 0 then q else p;
      ClearSplit(bd, alloc, split, Parent(x));
      split := split[k + 1 := Clear(split[k + 1], BlkIndex(base, k + 1, p'))];
      bd := bd.(split := bd.split - {Parent(x)});
      BitsFree(bd, Merge(bd0, x), alloc, split);
      bd, live := Merge(bd0, x), live - {x} + {Parent(x)};
    }

    /** bd_free's end: the buddy is in use, so the block goes on its free list. */
    method ReleaseBlock(k: nat, p: int, ghost x: Blk)
      requires Valid() && x in live && x.k == k && p == Addr(base, x) && Buddy(x) in bd.alloc
      modifies this, lst
      ensures Valid() && base == old(base) && nsizes == old(nsizes) && marks == old(marks)
      ensures bd == Release(old(bd), x) && live == old(live) - {x}
      ensures k < |old(lst.lists)| && lst.lists == old(lst.lists)[k := [p] + old(lst.lists)[k]]
    {
      hide Inv, BitsMatch, ListsMatch, HeadsReserved, AllOk, Addr, BlkIndex, Ok, Set, Clear, Unoccupied;
      ghost var bd0 := bd;
      LiveOk(bd, live, marks, x);
      IndexOfAddr(base, x);
      ReleaseInv(bd, live, marks, x);
      LiveNotFree(bd, live, marks, x);
      NotLinked(Release(bd, x), live - {x}, marks, base, bd.free, x, lst.next, lst.prev, lst.heads, lst.lists,
        lst.owner);
      ClearAlloc(bd, alloc, split, x);
      alloc := alloc[k := Clear(alloc[k], BlkIndex(base, k, p))];
      bd := bd.(alloc := bd.alloc - {x});
      Lengths(lst.next, lst.prev, lst.heads, lst.lists, lst.owner);
      ListPushed(bd.free, base, lst.lists, x);
      lst.LstPush(k, p);
      BitsFree(bd, Release(bd0, x), alloc, split);
      bd, live := Release(bd0, x), live - {x};
    }

    /** size: the size p was allocated at. The loop never looks past the largest size. */
    method Size(p: int, ghost x: Blk) returns (k: nat)
      requires Valid() && x in live && p == Addr(base, x)
      ensures k == x.k
    {
      hide Inv, BitsMatch, ListsMatch, HeadsReserved, AllOk, Addr, BlkIndex, Ok, Set, Clear, Unoccupied;
      LiveOk(bd, live, marks, x);
      LiveBelowTop(bd, live, marks, x);
      k := 0;
      while true
        invariant 0 <= k <= x.k
        decreases x.k - k
      {
        if k < x.k { SizeRound(bd, live, marks, base, x, k + 1); } else { IndexOfAddr(base, x); }
        ghost var y := if k < x.k then Leftmost(x, k + 1) else Parent(x);
        BitGive(bd, alloc, split, y);
        if IsSet(split[k + 1], BlkIndex(base, k + 1, p)) { return; }
        k := k + 1;
      }
    }

    /** bd_free */
    method Free(p: int, ghost x: Blk)
      requires Valid() && x in live && p == Addr(base, x)
      modifies this, lst
      ensures Valid() && base == old(base) && nsizes == old(nsizes) && marks == old(marks)
      ensures bd == FreeUp(old(bd), x) && live == old(live) - {x}
    {
      hide Inv, BitsMatch, ListsMatch, HeadsReserved, AllOk, Addr, BlkIndex, Ok, Set, Clear, Merge, Release, Unoccupied;
      var k := Size(p, x);
      var p := p;
      ghost var x0, x, live0 := x, x, live - {x};
      while true
        invariant Valid() && base == old(base) && nsizes == old(nsizes) && marks == old(marks)
        invariant x in live && x.k == k && p == Addr(base, x)
        invariant FreeUp(bd, x) == FreeUp(old(bd), x0) && live - {x} == live0
        decreases nsizes - k
      {
        LiveOk(bd, live, marks, x);
        IndexOfAddr(base, x);
        var bi := BlkIndex(base, k, p);
        var buddy := if bi % 2 == 0 then bi + 1 else bi - 1;
        BitGive(bd, alloc, split, Buddy(x));
        if IsSet(alloc[k], buddy) { break; }
        MergeFresh(bd, live, marks, x);
        p := MergeBlock(k, p, x);
        x := Parent(x);
        k := k + 1;
      }
      ReleaseBlock(k, p, x);
    }

    /** bd_malloc. Nothing is handed out exactly when no aligned block of the size
        asked for is unoccupied; otherwise the block is cut off the left end of z, which is
        first on the first list that is not empty. */
    method Malloc(nbytes: nat) returns (r: Option<int>, ghost x: Blk, ghost z: Blk)
      requires Valid() && nbytes <= 0x8000_0000_0000_0000
      modifies this, lst
      ensures Valid() && base == old(base) && nsizes == old(nsizes) && marks == old(marks)
      ensures r.None? <==> forall y: Blk :: Ok(bd.max, y) && BlkSize(y.k) >= nbytes ==> !Unoccupied(old(live), marks, y)
      ensures r.None? ==> bd == old(bd) && live == old(live) && lst.lists == old(lst.lists)
      ensures r.Some? ==> r.value == Addr(base, x) && BlkSize(x.k) >= nbytes && (x.k > 0 ==> BlkSize(x.k - 1) < nbytes)
      ensures r.Some? ==> x !in old(live) && live == old(live) + {x}
      ensures r.Some? ==> z in old(bd).free && x.k <= z.k && x == Leftmost(z, x.k)
      ensures r.Some? ==> forall y :: y in old(bd).free && x.k <= y.k ==> z.k <= y.k
      ensures r.Some? ==> forall y :: y in bd.free <==> (y in old(bd).free && y != z) || CutOff(z, x.k, y)
      ensures r.Some? ==> ListsCut(base, old(lst.lists), lst.lists, z, x.k)
    {
      hide Inv, BitsMatch, ListsMatch, HeadsReserved, AllOk, Addr, BlkIndex, Ok, Set, Clear, Take, Halve, SplitDown,
           Unoccupied, ListsCut, CutOff, Leftmost;
      var fk := FirstK(nbytes);
      var k := fk;
      while k < nsizes
        invariant fk <= k
        invariant forall j :: fk <= j < k && j < |lst.lists| ==> lst.lists[j] == []
        modifies {}
      {
        Lengths(lst.next, lst.prev, lst.heads, lst.lists, lst.owner);
        var empty := lst.LstEmpty(k);
        if !empty { break; }
        k := k + 1;
      }
      Lengths(lst.next, lst.prev, lst.heads, lst.lists, lst.owner);
      x, z := Blk(0, 0), Blk(0, 0);
      if k >= nsizes {
        NoneFound(bd, live, marks, base, lst.lists, fk, nbytes);
        return None, x, z;
      }
      NoneBelow(bd.free, base, lst.lists, fk, k);
      ghost var bd0, live0, lists0 := bd, live, lst.lists;
      var p;
      p, x := Pop(k);
      z := x;
      SomeFound(bd0, live0, marks, x, fk, nbytes);
      FreeNotLive(bd0, live0, marks, x);
      CutNone(base, bd0, lists0, z);
      while k > fk
        invariant Valid() && base == old(base) && nsizes == old(nsizes) && marks == old(marks)
        invariant fk <= k == x.k && p == Addr(base, x) && x !in live0 && live == live0 + {x}
        invariant k < nsizes && k <= z.k && x == Leftmost(z, k) && ListsCut(base, lists0, lst.lists, z, k)
        invariant forall y :: y in bd.free <==> (y in bd0.free && y != z) || CutOff(z, k, y)
      {
        ghost var bd1, lists1 := bd, lst.lists;
        LeftFresh(bd, live, marks, x);
        SplitBlock(k, p, x);
        CutMore(base, bd0, bd1, lists0, lists1, z, x);
        x := Left(x);
        k := k - 1;
      }
      r := Some(p);
    }

  }

  /** One of the right halves that splitting z down to size k cuts off. */
  predicate CutOff(z: Blk, k: nat, y: Blk) {
    k <= y.k < z.k && y == Right(Leftmost(z, y.k + 1))
  }

  /** The lists when z has been taken off its own and split down to size k. */
  ghost predicate ListsCut(base: int, lists: seq<seq<int>>, lists': seq<seq<int>>, z: Blk, k: nat) {
    && |lists'| == |lists| && z.k < |lists| && lists[z.k] != [] && lists[z.k][0] == Addr(base, z)
    && forall j :: 0 <= j < |lists| ==>
                   lists'[j] == if j == z.k then lists[j][1..]
                                else if k <= j < z.k then [Addr(base, Right(Leftmost(z, j + 1)))] + lists[j]
                                else lists[j]
  }

  /** A list that is empty has no free block of its size. */
  lemma NoneBelow(free: set<Blk>, base: int, lists: seq<seq<int>>, fk: nat, k: nat)
    requires ListsMatch(free, base, lists) && forall j :: fk <= j < k && j < |lists| ==> lists[j] == []
    requires k <= |lists|
    ensures forall y :: y in free && fk <= y.k ==> k <= y.k
  {
    hide ListsMatch, Addr;
    forall y | y in free && fk <= y.k ensures k <= y.k {
      OnItsList(free, base, lists, y);
    }
  }

  lemma CutNone(base: int, bd: Books, lists: seq<seq<int>>, z: Blk)
    requires z.k < |lists| && lists[z.k] != [] && lists[z.k][0] == Addr(base, z)
    ensures z == Leftmost(z, z.k) && ListsCut(base, lists, lists[z.k := lists[z.k][1..]], z, z.k)
    ensures forall y :: y in Take(bd, z).free <==> (y in bd.free && y != z) || CutOff(z, z.k, y)
  {
    hide Addr;
  }

  lemma CutMore(base: int, bd: Books, bd': Books, lists: seq<seq<int>>, lists': seq<seq<int>>, z: Blk, x: Blk)
    requires 0 < x.k <= z.k && x == Leftmost(z, x.k) && ListsCut(base, lists, lists', z, x.k) && x.k <= |lists'|
    requires forall y :: y in bd'.free <==> (y in bd.free && y != z) || CutOff(z, x.k, y)
    ensures Left(x) == Leftmost(z, x.k - 1)
    ensures ListsCut(base, lists, lists'[x.k - 1 := [Addr(base, Right(x))] + lists'[x.k - 1]], z, x.k - 1)
    ensures forall y :: y in Halve(bd', x).free <==> (y in bd.free && y != z) || CutOff(z, x.k - 1, y)
  {
    hide Addr, Leftmost, ListsCut, CutOff;
    LeftmostNext(z, x.k);
    ListsCutMore(base, lists, lists', z, x);
    forall y ensures CutOff(z, x.k - 1, y) <==> CutOff(z, x.k, y) || y == Right(x) { CutOffMore(z, x, y); }
  }

  lemma CutOffMore(z: Blk, x: Blk, y: Blk)
    requires 0 < x.k <= z.k && x == Leftmost(z, x.k)
    ensures CutOff(z, x.k - 1, y) <==> CutOff(z, x.k, y) || y == Right(x)
  {
    hide Leftmost;
  }

  lemma ListsCutMore(base: int, lists: seq<seq<int>>, lists': seq<seq<int>>, z: Blk, x: Blk)
    requires 0 < x.k <= z.k && x == Leftmost(z, x.k) && ListsCut(base, lists, lists', z, x.k) && x.k <= |lists'|
    ensures ListsCut(base, lists, lists'[x.k - 1 := [Addr(base, Right(x))] + lists'[x.k - 1]], z, x.k - 1)
  {
    hide Addr, Leftmost;
    var k := x.k - 1;
    var lists'' := lists'[k := [Addr(base, Right(x))] + lists'[k]];
    forall j | 0 <= j < |lists|
      ensures lists''[j] == if j == z.k then lists[j][1..]
                            else if k <= j < z.k then [Addr(base, Right(Leftmost(z, j + 1)))] + lists[j]
                            else lists[j]
    {
      assert lists'[j] == if j == z.k then lists[j][1..]
                          else if x.k <= j < z.k then [Addr(base, Right(Leftmost(z, j + 1)))] + lists[j]
                          else lists[j];
    }
  }

  lemma {:induction false} LeftmostNext(z: Blk, k: nat)
    requires 0 < k <= z.k
    ensures Left(Leftmost(z, k)) == Leftmost(z, k - 1)
    decreases z.k
  {
    if k < z.k { LeftmostNext(Left(z), k); }
  }

  function Zeros(n: nat): Bytes {
    seq(n, _ => 0)
  }

  /** A zeroed bit vector for every size from `first` on, and their bytes in all. */
  method MakeVectors(nsizes: nat, first: nat) returns (v: seq<Bytes>, bytes: nat)
    requires first <= 1 <= nsizes
    ensures |v| == nsizes && forall k :: first <= k < nsizes ==> v[k] == Zeros(VectorBytes(nsizes - 1, k))
    ensures bytes == if first == 0 then AllocBytes(nsizes - 1, nsizes) else SplitBytes(nsizes - 1, nsizes)
  {
    hide RoundUp, Pow2, Zeros;
    v, bytes := if first == 0 then [] else [[]], 0;
    for k := first to nsizes
      invariant |v| == k && forall j :: first <= j < k ==> v[j] == Zeros(VectorBytes(nsizes - 1, j))
      invariant bytes == if first == 0 then AllocBytes(nsizes - 1, k) else SplitBytes(nsizes - 1, k)
    {
      var sz := VectorBytes(nsizes - 1, k);
      v := v + [Zeros(sz)];
      bytes := bytes + sz;
    }
  }

  lemma TablesConsistent(bd: Books, alloc: seq<Bytes>, split: seq<Bytes>, base: int, lists: seq<seq<int>>)
    requires bd == Books(bd.max, {}, {}, {}) && |alloc| == |split| == bd.max + 1
    requires forall k :: 0 <= k <= bd.max ==> alloc[k] == Zeros(VectorBytes(bd.max, k))
    requires forall k :: 1 <= k <= bd.max ==> split[k] == Zeros(VectorBytes(bd.max, k))
    requires forall k :: 0 <= k < |lists| ==> lists[k] == []
    ensures BitsMatch(bd, alloc, split) && ListsMatch(bd.free, base, lists)
  {
    forall x ensures BitAt(bd, alloc, split, x) {
      if Ok(bd.max, x) {
        VectorHas(bd.max, x);
        ZeroBit(alloc[x.k], x.b);
        if x.k > 0 { ZeroBit(split[x.k], x.b); }
      }
    }
  }

  lemma VectorHas(max: nat, x: Blk)
    requires Ok(max, x)
    ensures Has(Zeros(VectorBytes(max, x.k)), x.b)
  {
    RoundUpIs(Pow2(max - x.k), 8);
  }

  lemma MetaIs(max: nat)
    ensures var n := SZ_INFO * (max + 1) + AllocBytes(max, max + 1) + SplitBytes(max, max + 1);
            RoundUp(n, LEAF_SIZE) == MetaLeaves(max) * LEAF_SIZE
  {
    RoundUpIs(SZ_INFO * (max + 1) + AllocBytes(max, max + 1) + SplitBytes(max, max + 1), LEAF_SIZE);
  }

  lemma RoundUpShift(base: int, n: nat)
    requires base > 0 && n > 0 && Quotient(base, LEAF_SIZE) * LEAF_SIZE == base
    ensures RoundUp(base + n, LEAF_SIZE) == base + RoundUp(n, LEAF_SIZE)
  {
    var q := Quotient(base, LEAF_SIZE);
    QuotientIs(base + n - 1, LEAF_SIZE, q + Quotient(n - 1, LEAF_SIZE), (n - 1) % LEAF_SIZE);
  }

  /** _log2 */
  method ComputeLog2(n: nat) returns (k: nat)
    ensures k == Log2(n)
  {
    k := 0;
    var m := n;
    while m > 1
      invariant k + Log2(m) == Log2(n)
    {
      k := k + 1;
      m := m / 2;
    }
  }

  lemma SuitableStart(start: int, end: int)
    requires Suitable(start, end)
    ensures start > 0 && var b := RoundUp(start, LEAF_SIZE); 0 < b < end && Quotient(b, LEAF_SIZE) * LEAF_SIZE == b
  {
    RoundUpIs(start, LEAF_SIZE);
  }

  lemma PairIs(bd: Books, x: Blk)
    requires Ok(bd.max, x) && x.k < bd.max
    ensures Ok(bd.max, Buddy(x)) && Buddy(x) == Blk(x.k, if x.b % 2 == 0 then x.b + 1 else x.b - 1)
    ensures FreeOfPair(bd, x) == if (x in bd.alloc) == (Buddy(x) in bd.alloc)
            then {} else if x in bd.alloc then {Buddy(x)} else {x}
  {
    OkParent(bd.max, x);
  }

  lemma FreedNone(bd: Books, meta: nat, end: nat)
    requires bd.free == {}
    ensures bd == bd.(free := Freed(bd, meta, end, 0)) && Total(meta, end, 0) == 0
  {
  }

  lemma LeavesSame(bd: Books, bd': Books)
    requires bd.alloc == bd'.alloc
    ensures Leaves(bd) == Leaves(bd')
  {
  }

  lemma PairSame(bd: Books, bd': Books, x: Blk)
    requires bd.alloc == bd'.alloc
    ensures FreeOfPair(bd, x) == FreeOfPair(bd', x)
  {
  }

  /** One round of bd_initfree: what it pushes is new, and is what the books end with. */
  lemma InitRound(bd: Books, meta: nat, end: nat, k: nat)
    requires Marked(bd, meta, end) && Layout(bd.max, meta, end) && k < bd.max
    ensures Ok(bd.max, Blk(k, Ceil(meta, k))) && Ok(bd.max, Blk(k, Floor(end, k)))
    ensures var first := FreeOfPair(bd, Blk(k, Ceil(meta, k)));
            var second := if Floor(end, k) > Ceil(meta, k) then FreeOfPair(bd, Blk(k, Floor(end, k))) else {};
            && first !! Freed(bd, meta, end, k) && second !! Freed(bd, meta, end, k) + first
            && Freed(bd, meta, end, k) + first + second == Freed(bd, meta, end, k + 1)
            && Freed(bd, meta, end, k + 1) <= Freed(bd, meta, end, bd.max)
            && Total(meta, end, k + 1) * LEAF_SIZE == Total(meta, end, k) * LEAF_SIZE + (if first == {}
               then 0 else BlkSize(k)) + (if second == {} then 0 else BlkSize(k))
  {
    hide FreeOfPair, Marked, Layout, FreedBelow, Ceil, Floor, Total, Added, Pow2, Ok, Twice;
    LayoutFits(bd.max, meta, end, k);
    FreedMonotone(bd, meta, end, k + 1, bd.max);
    FreedIs(bd, meta, end, k);
    AddedIs(bd, meta, end, k);
    TotalStep(meta, end, k);
    RoundDisjoint(bd, meta, end, k);
    BlkSizeIs(k);
  }

  lemma RoundDisjoint(bd: Books, meta: nat, end: nat, k: nat)
    requires Marked(bd, meta, end) && Fits(bd.max, meta, end, k) && !Twice(meta, end, k)
    requires FreedBelow(bd.(free := Freed(bd, meta, end, k)), k)
    ensures FirstFreed(bd, meta, k) !! Freed(bd, meta, end, k)
    ensures SecondFreed(bd, meta, end, k) !! Freed(bd, meta, end, k) + FirstFreed(bd, meta, k)
  {
    SizeComplete(bd, meta, end, k);
    var before := bd.(free := Freed(bd, meta, end, k));
    forall x | x in before.free ensures x.k < k { }
  }

  lemma LayoutOnce(max: nat, meta: nat, end: nat)
    requires Layout(max, meta, end)
    ensures PairsOnce(max, meta, end)
  {
  }

  lemma LayoutFacts(max: nat, meta: nat, end: nat)
    requires Layout(max, meta, end)
    ensures 0 < meta < end < Pow2(max)
  {
    LayoutFits(max, meta, end, 0);
  }

  lemma BlkSizeIs(k: nat)
    ensures BlkSize(k) == Pow2(k) * LEAF_SIZE
  {
  }

  lemma UnavailableIs(h: nat, n: nat)
    requires n < h * LEAF_SIZE
    ensures h * LEAF_SIZE - RoundUp(h * LEAF_SIZE - n, LEAF_SIZE) == (n / LEAF_SIZE) * LEAF_SIZE
  {
    var q, r := n / LEAF_SIZE, n % LEAF_SIZE;
    if r == 0 {
      QuotientIs(h * LEAF_SIZE - n - 1, LEAF_SIZE, h - q - 1, LEAF_SIZE - 1);
    } else {
      QuotientIs(h * LEAF_SIZE - n - 1, LEAF_SIZE, h - q - 1, LEAF_SIZE - r - 1);
    }
  }

  lemma BothMarked(bd0: Books, bd1: Books, bd2: Books, meta: nat, end: nat)
    requires bd0 == Books(bd0.max, {}, {}, {}) && bd0.max == bd1.max == bd2.max && 0 < meta < end < Pow2(bd0.max)
    requires TouchedAll(bd0, bd1, 0, meta, bd0.max + 1, 0) && TouchedAll(bd1, bd2, end, Pow2(bd0.max), bd0.max + 1, 0)
    ensures Marked(bd2, meta, end)
  {
    var n := bd0.max + 1;
    forall x ensures MarkedAt(bd2, meta, end, x) {
      assert Touched(bd0, bd1, 0, meta, n, 0, x) && Touched(bd1, bd2, end, Pow2(bd0.max), n, 0, x);
      if Ok(bd0.max, x) {
        FloorZero(x.k);
        CeilTop(bd0.max, x.k);
      }
    }
  }

  lemma {:induction false} FloorZero(k: nat)
    ensures Floor(0, k) == 0
  {
    if k > 0 { FloorZero(k - 1); }
  }

  lemma {:induction false} CeilTop(max: nat, k: nat)
    requires k <= max
    ensures Ceil(Pow2(max), k) == Pow2(max - k)
  {
    if k > 0 {
      CeilTop(max, k - 1);
      assert Pow2(max - (k - 1)) == 2 * Pow2(max - k);
    }
  }

  lemma LeavesAre(bd: Books, meta: nat, end: nat)
    requires Marked(bd, meta, end)
    ensures forall b: nat :: Blk(0, b) in Leaves(bd) <==> b < Pow2(bd.max) && (b < meta || b >= end)
  {
    forall b: nat ensures Blk(0, b) in Leaves(bd) <==> b < Pow2(bd.max) && (b < meta || b >= end) {
      assert MarkedAt(bd, meta, end, Blk(0, b));
    }
  }

  lemma HeadsMarked(bd: Books, base: int, heads: seq<int>, meta: nat, end: nat)
    requires Marked(bd, meta, end) && meta == MetaLeaves(bd.max) && 0 < meta < end < Pow2(bd.max)
             && |heads| == bd.max + 1
    requires forall k :: 0 <= k < |heads| ==> heads[k] == base + SZ_INFO * k
    ensures HeadsReserved(base, heads, Leaves(bd))
  {
    MetaAtLeast(bd.max);
    LeavesAre(bd, meta, end);
    forall k | 0 <= k < |heads|
      ensures heads[k] >= base && (heads[k] - base) % LEAF_SIZE == 0 && LeafAt(base, heads[k]) in Leaves(bd)
    {
      assert LeafAt(base, heads[k]) == Blk(0, 2 * k);
    }
  }

  /** blk_index_next */
  function BlkIndexNext(base: int, k: nat, p: int): nat
    requires p >= base
  {
    var n := Quotient(p - base, BlkSize(k));
    if n * BlkSize(k) != p - base then n + 1 else n
  }

  lemma {:induction false} LeafQuotient(n: nat, k: nat)
    ensures Quotient(n * LEAF_SIZE, BlkSize(k)) == Floor(n, k)
  {
    if k == 0 {
      QuotientIs(n * LEAF_SIZE, LEAF_SIZE, n, 0);
    } else {
      LeafQuotient(n, k - 1);
      SizeDoubles(k - 1);
      HalfQuotient(n * LEAF_SIZE, BlkSize(k - 1));
    }
  }

  lemma MarkIndices(base: int, n: nat, k: nat)
    ensures BlkIndex(base, k, base + n * LEAF_SIZE) == Floor(n, k)
    ensures BlkIndexNext(base, k, base + n * LEAF_SIZE) == Ceil(n, k)
  {
    hide Floor, Ceil, Quotient, Pow2;
    LeafQuotient(n, k);
    FloorCeil(n, k);
    SpanScale(Floor(n, k), Pow2(k));
  }

  lemma SpanScale(f: nat, p: nat)
    ensures f * (p * LEAF_SIZE) == (f * p) * LEAF_SIZE
  {
  }

  lemma MarkBounds(max: nat, base: int, s: nat, e: nat, k: nat)
    requires k <= max && e <= Pow2(max)
    ensures base + s * LEAF_SIZE >= base && base + e * LEAF_SIZE >= base
    ensures BlkIndex(base, k, base + s * LEAF_SIZE) == Floor(s, k)
    ensures BlkIndexNext(base, k, base + e * LEAF_SIZE) == Ceil(e, k)
  {
    MarkIndices(base, s, k);
    MarkIndices(base, e, k);
  }

  lemma MarkOk(max: nat, e: nat, k: nat, bi: nat)
    requires k <= max && e <= Pow2(max) && bi < Ceil(e, k)
    ensures Ok(max, Blk(k, bi))
  {
    CeilBound(e, max, k);
  }

  /** bd_mark has done the sizes below k and, of size k, the blocks below bi. */
  predicate Touched(bd0: Books, bd: Books, s: nat, e: nat, k: nat, bi: nat, x: Blk) {
    var hit := Ok(bd0.max, x) && Floor(s, x.k) <= x.b < Ceil(e, x.k) && (x.k < k || (x.k == k && x.b < bi));
    (x in bd.alloc <==> x in bd0.alloc || hit) && (x in bd.split <==> x in bd0.split || (hit && x.k > 0))
  }

  ghost predicate TouchedAll(bd0: Books, bd: Books, s: nat, e: nat, k: nat, bi: nat) {
    forall x {:trigger Touched(bd0, bd, s, e, k, bi, x)} :: Touched(bd0, bd, s, e, k, bi, x)
  }

  lemma TouchedStart(bd: Books, s: nat, e: nat)
    ensures TouchedAll(bd, bd, s, e, 0, 0)
  {
  }

  lemma TouchedEnter(bd0: Books, bd: Books, s: nat, e: nat, k: nat, bi: nat)
    requires TouchedAll(bd0, bd, s, e, k, 0) && bi == Floor(s, k)
    ensures TouchedAll(bd0, bd, s, e, k, bi)
  {
    forall x ensures Touched(bd0, bd, s, e, k, bi, x) { assert Touched(bd0, bd, s, e, k, 0, x); }
  }

  lemma TouchedStep(bd0: Books, bd: Books, s: nat, e: nat, k: nat, bi: nat)
    requires TouchedAll(bd0, bd, s, e, k, bi) && Floor(s, k) <= bi < Ceil(e, k) && Ok(bd0.max, Blk(k, bi))
    ensures TouchedAll(bd0, bd.(alloc := bd.alloc + {Blk(k, bi)}, split := if k > 0
            then bd.split + {Blk(k, bi)} else bd.split), s, e, k, bi + 1)
  {
    var bd' := bd.(alloc := bd.alloc + {Blk(k, bi)}, split := if k > 0 then bd.split + {Blk(k, bi)} else bd.split);
    var n := bi + 1;
    forall x ensures Touched(bd0, bd', s, e, k, n, x) {
      assert Touched(bd0, bd, s, e, k, bi, x);
      assert x == Blk(k, bi) <==> x.k == k && x.b == bi;
    }
  }

  lemma TouchedLeave(bd0: Books, bd: Books, s: nat, e: nat, k: nat, bi: nat)
    requires TouchedAll(bd0, bd, s, e, k, bi) && bi >= Ceil(e, k)
    ensures TouchedAll(bd0, bd, s, e, k + 1, 0)
  {
    var k' := k + 1;
    forall x ensures Touched(bd0, bd, s, e, k', 0, x) { assert Touched(bd0, bd, s, e, k, bi, x); }
  }

  lemma ParentAddr(base: int, x: Blk)
    ensures Addr(base, Parent(x)) == if Buddy(x).b % 2 == 0 then Addr(base, Buddy(x)) else Addr(base, x)
  {
    hide Addr, BlkSize;
    AddrLeft(base, Parent(x));
    assert Left(Parent(x)) == if Buddy(x).b % 2 == 0 then Buddy(x) else x;
  }

  lemma AddrIs(base: int, x: Blk)
    ensures Addr(base, x) == base + x.b * BlkSize(x.k)
  {
  }

  lemma OnItsList(free: set<Blk>, base: int, lists: seq<seq<int>>, x: Blk)
    requires ListsMatch(free, base, lists) && x in free
    ensures x.k < |lists| && Addr(base, x) in lists[x.k]
  {
    assert ListAt(free, base, lists, x);
  }

  lemma LiveNotFree(bd: Books, live: set<Blk>, marks: set<Blk>, x: Blk)
    requires Inv(bd, live, marks) && x in live
    ensures x !in bd.free
  {
    assert x in bd.alloc - bd.split;
    assert At(bd, x);
  }

  lemma FreeNotLive(bd: Books, live: set<Blk>, marks: set<Blk>, x: Blk)
    requires Inv(bd, live, marks) && x in bd.free
    ensures x !in live
  {
    if x in live { LiveNotFree(bd, live, marks, x); }
  }

  lemma MergeFresh(bd: Books, live: set<Blk>, marks: set<Blk>, x: Blk)
    requires Inv(bd, live, marks) && x in live && Buddy(x) !in bd.alloc
    ensures Parent(x) !in live && live - {x} + {Parent(x)} - {Parent(x)} == live - {x}
    ensures FreeUp(bd, x) == FreeUp(Merge(bd, x), Parent(x))
  {
    LiveBelowTop(bd, live, marks, x);
    assert Parent(x) !in bd.alloc - bd.split;
  }

  lemma LeftFresh(bd: Books, live: set<Blk>, marks: set<Blk>, x: Blk)
    requires Inv(bd, live, marks) && x in live && x.k > 0
    ensures Left(x) !in live
  {
    LiveBelowTop(bd, live, marks, x);
    InUseExists(bd, live, marks, x);
    ChildrenAbsent(bd, live, marks, x);
    assert Left(x) !in bd.alloc - bd.split;
  }

  lemma SizeRound(bd: Books, live: set<Blk>, marks: set<Blk>, base: int, x: Blk, k: nat)
    requires Inv(bd, live, marks) && x in live && k <= x.k
    ensures Addr(base, x) >= base && BlkIndex(base, k, Addr(base, x)) == Leftmost(x, k).b
    ensures Ok(bd.max, Leftmost(x, k)) && Leftmost(x, k) !in bd.split
  {
    SizeFound(bd, live, marks, x, k);
    LiveBelowTop(bd, live, marks, x);
    InUseExists(bd, live, marks, x);
    LeftmostWithin(bd.max, x, k);
    AddrLeftmost(base, x, k);
    IndexOfAddr(base, Leftmost(x, k));
  }

  lemma Lengths(next: Links, prev: Links, heads: seq<int>, lists: seq<seq<int>>, owner: map<int, nat>)
    requires AllOk(next, prev, heads, lists, owner)
    ensures |heads| == |lists|
  {
  }

  lemma {:induction false} SizeMonotone(j: nat, k: nat)
    requires j <= k
    ensures BlkSize(j) <= BlkSize(k)
  {
    if j < k {
      SizeMonotone(j, k - 1);
      SizeDoubles(k - 1);
    }
  }

  /** fk is the smallest size that holds n bytes: a block holds n bytes exactly when it is at least that size. */
  lemma FitsIff(fk: nat, n: nat, k: nat)
    requires BlkSize(fk) >= n && (fk > 0 ==> BlkSize(fk - 1) < n)
    ensures BlkSize(k) >= n <==> k >= fk
  {
    if k >= fk { SizeMonotone(fk, k); } else { SizeMonotone(k, fk - 1); }
  }

  lemma NoneFound(bd: Books, live: set<Blk>, marks: set<Blk>, base: int, lists: seq<seq<int>>, fk: nat, n: nat)
    requires Inv(bd, live, marks) && ListsMatch(bd.free, base, lists) && BlkSize(fk) >= n
             && (fk > 0 ==> BlkSize(fk - 1) < n)
    requires forall j :: fk <= j < |lists| ==> lists[j] == []
    ensures forall y: Blk :: Ok(bd.max, y) && BlkSize(y.k) >= n ==> !Unoccupied(live, marks, y)
  {
    forall y: Blk | Ok(bd.max, y) && BlkSize(y.k) >= n ensures !Unoccupied(live, marks, y) {
      FitsIff(fk, n, y.k);
      SearchComplete(bd, live, marks, y.k);
      if Unoccupied(live, marks, y) {
        var z :| z in bd.free && z.k >= y.k;
        OnItsList(bd.free, base, lists, z);
      }
    }
  }

  lemma SomeFound(bd: Books, live: set<Blk>, marks: set<Blk>, z: Blk, fk: nat, n: nat)
    requires Inv(bd, live, marks) && z in bd.free && z.k >= fk && BlkSize(fk) >= n && (fk > 0 ==> BlkSize(fk - 1) < n)
    ensures exists y: Blk :: Ok(bd.max, y) && BlkSize(y.k) >= n && Unoccupied(live, marks, y)
  {
    FitsIff(fk, n, z.k);
    FreeOk(bd, live, marks, z);
    assert Within(z, z);
    FreeUnoccupied(bd, live, marks, z, z);
  }

  lemma TailIs(l: seq<int>)
    requires l != []
    ensures Without(l, 0) == l[1..]
  {
  }

  lemma FreeOk(bd: Books, live: set<Blk>, marks: set<Blk>, x: Blk)
    requires Inv(bd, live, marks) && x in bd.free
    ensures Ok(bd.max, x)
  {
    assert At(bd, x);
  }

  lemma LiveOk(bd: Books, live: set<Blk>, marks: set<Blk>, x: Blk)
    requires Inv(bd, live, marks) && x in live
    ensures Ok(bd.max, x) && x.k < bd.max && Ok(bd.max, Parent(x)) && Ok(bd.max, Buddy(x))
    ensures x.k > 0 ==> Ok(bd.max, Left(x)) && Ok(bd.max, Right(x))
  {
    LiveBelowTop(bd, live, marks, x);
    InUseExists(bd, live, marks, x);
    OkParent(bd.max, x);
    if x.k > 0 { OkChildren(bd.max, x); }
  }

  lemma HalveFresh(bd: Books, live: set<Blk>, marks: set<Blk>, x: Blk)
    requires Inv(bd, live, marks) && x in live && x.k > 0
    ensures Right(x) !in bd.free
  {
    LiveBelowTop(bd, live, marks, x);
    InUseExists(bd, live, marks, x);
    ChildrenAbsent(bd, live, marks, x);
  }
}
