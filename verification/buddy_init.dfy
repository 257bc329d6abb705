/**
 Initialisation of the buddy allocator: with the smallest blocks [0, meta) and
 [end, 2^max) reserved, which blocks bd_initfree puts on the free lists, and when
 they tile the range in between exactly.
 */
module BuddyInit {
  import opened BuddySpec

  /** blk_index_next and blk_index, in units of the smallest block: the first block of
      size k at or after n, and the one that contains n. */
  function Ceil(n: nat, k: nat): nat {
    if k == 0 then n else (Ceil(n, k - 1) + 1) / 2
  }

  function Floor(n: nat, k: nat): nat {
    if k == 0 then n else Floor(n, k - 1) / 2
  }

  /** The block overlaps a reserved range; bd_mark sets its bits. */
  predicate Reserved(meta: nat, end: nat, x: Blk) {
    x.b < Ceil(meta, x.k) || x.b >= Floor(end, x.k)
  }

  predicate MarkedAt(bd: Books, meta: nat, end: nat, x: Blk) {
    && (x in bd.alloc <==> Ok(bd.max, x) && Reserved(meta, end, x))
    && (x in bd.split <==> Ok(bd.max, x) && Reserved(meta, end, x) && x.k > 0)
  }

  /** The books after both calls of bd_mark. */
  ghost predicate Marked(bd: Books, meta: nat, end: nat) {
    forall x {:trigger MarkedAt(bd, meta, end, x)} :: MarkedAt(bd, meta, end, x)
  }

  /** The metadata ends in the first half of the heap and below the end of memory, which
      falls short of the heap's end: no block number bd_initfree uses is past its table. */
  predicate InBounds(max: nat, meta: nat, end: nat) {
    max >= 1 && 0 < meta <= Pow2(max - 1) && meta < end < Pow2(max)
  }

  /** No size has bd_initfree visit one pair twice. */
  predicate PairsOnce(max: nat, meta: nat, end: nat) {
    forall k :: 0 <= k < max ==> !Twice(meta, end, k)
  }

  predicate Layout(max: nat, meta: nat, end: nat) {
    InBounds(max, meta, end) && PairsOnce(max, meta, end)
  }

  // ----- one size -----

  /** bd_initfree_pair: of a pair with exactly one allocated block, the other one. */
  function FreeOfPair(bd: Books, x: Blk): set<Blk> {
    if (x in bd.alloc) != (Buddy(x) in bd.alloc) then {if x in bd.alloc then Buddy(x) else x} else {}
  }

  function LeftBlk(meta: nat, k: nat): Blk {
    Blk(k, Ceil(meta, k))
  }

  function RightBlk(end: nat, k: nat): Blk {
    Blk(k, Floor(end, k))
  }

  /** The pair at `left` and the pair at `right` are one and the same, half of it free. */
  predicate Twice(meta: nat, end: nat, k: nat) {
    Ceil(meta, k) % 2 == 0 && Floor(end, k) == Ceil(meta, k) + 1
  }

  /** The reserved ranges leave indices in bounds at size k. */
  predicate Fits(max: nat, meta: nat, end: nat, k: nat) {
    k < max && Ok(max, LeftBlk(meta, k)) && Ok(max, RightBlk(end, k))
  }

  /** Away from the two pairs nothing is to be freed at this size: a block exists and
      is free exactly when it is the odd left one or the even one before an odd right. */
  lemma FreeAtSize(bd: Books, meta: nat, end: nat, x: Blk)
    requires Marked(bd, meta, end) && Ok(bd.max, x) && x.k < bd.max
    ensures var l, r := Ceil(meta, x.k), Floor(end, x.k);
            Exists(bd, x) && x !in bd.alloc <==>
            l <= x.b < r && ((x.b == l && l % 2 == 1) || (x.b == r - 1 && r % 2 == 1))
  {
    assert MarkedAt(bd, meta, end, x) && MarkedAt(bd, meta, end, Parent(x));
    OkParent(bd.max, x);
  }

  lemma LeftPair(bd: Books, meta: nat, end: nat, k: nat)
    requires Marked(bd, meta, end) && Fits(bd.max, meta, end, k)
    ensures var l, r := Ceil(meta, k), Floor(end, k);
            FreeOfPair(bd, LeftBlk(meta, k)) == if l < r && (l % 2 == 1 || r == l + 1) then {LeftBlk(meta, k)} else {}
  {
    hide Marked, Ceil, Floor, Pow2;
    var x := LeftBlk(meta, k);
    OkParent(bd.max, x);
    BitsAt(bd, meta, end, x);
    BitsAt(bd, meta, end, Buddy(x));
  }

  lemma RightPair(bd: Books, meta: nat, end: nat, k: nat)
    requires Marked(bd, meta, end) && Fits(bd.max, meta, end, k) && Floor(end, k) > Ceil(meta, k)
    ensures var r := Floor(end, k);
            FreeOfPair(bd, RightBlk(end, k)) == if r % 2 == 1 then {Blk(k, r - 1)} else {}
  {
    hide Marked, Ceil, Floor, Pow2;
    var x := RightBlk(end, k);
    OkParent(bd.max, x);
    BitsAt(bd, meta, end, x);
    BitsAt(bd, meta, end, Buddy(x));
  }

  lemma BitsAt(bd: Books, meta: nat, end: nat, x: Blk)
    requires Marked(bd, meta, end)
    ensures MarkedAt(bd, meta, end, x)
  {
  }

  /** The two pairs together free exactly what is to be freed at this size; and no
      block twice, unless the pairs coincide. */
  lemma SizeComplete(bd: Books, meta: nat, end: nat, k: nat)
    requires Marked(bd, meta, end) && Fits(bd.max, meta, end, k)
    ensures var first := FreeOfPair(bd, LeftBlk(meta, k));
            var second := if Floor(end, k) > Ceil(meta, k) then FreeOfPair(bd, RightBlk(end, k)) else {};
            && (forall x {:trigger x in first + second} ::
               x in first + second <==> x.k == k && Ok(bd.max, x) && Exists(bd, x) && x !in bd.alloc)
            && (first !! second <==> !Twice(meta, end, k))
  {
    var l, r := Ceil(meta, k), Floor(end, k);
    LeftPair(bd, meta, end, k);
    if r > l { RightPair(bd, meta, end, k); }
    var first := FreeOfPair(bd, LeftBlk(meta, k));
    var second := if r > l then FreeOfPair(bd, RightBlk(end, k)) else {};
    forall x: Blk ensures x in first + second <==> x.k == k && Ok(bd.max, x) && Exists(bd, x) && x !in bd.alloc {
      if x.k == k && Ok(bd.max, x) { FreeAtSize(bd, meta, end, x); }
      LowerOk(bd.max, k, r);
    }
  }

  lemma LowerOk(max: nat, k: nat, r: nat)
    requires Ok(max, Blk(k, r))
    ensures forall b: nat :: b <= r ==> Ok(max, Blk(k, b))
  {
  }

  // ----- all sizes -----

  /** What is left once bd_initfree has done sizes below k. */
  ghost predicate FreedBelow(bd: Books, k: nat) {
    forall x {:trigger x in bd.free} :: x in bd.free <==> Ok(bd.max, x) && Exists(bd, x) && x !in bd.alloc && x.k < k
  }

  lemma ReservedUp(meta: nat, end: nat, x: Blk)
    ensures Reserved(meta, end, x) ==> Reserved(meta, end, Parent(x))
    ensures x.k > 0 && Reserved(meta, end, x) ==> Reserved(meta, end, Left(x)) || Reserved(meta, end, Right(x))
  {
    if x.k > 0 {
      assert Ceil(meta, x.k) == (Ceil(meta, x.k - 1) + 1) / 2 && Floor(end, x.k) == Floor(end, x.k - 1) / 2;
    }
  }

  ghost function Leaves(bd: Books): set<Blk> {
    set x | x in bd.alloc && x.k == 0
  }

  lemma {:induction false} CeilPositive(n: nat, k: nat)
    requires n > 0
    ensures Ceil(n, k) > 0
  {
    if k > 0 { CeilPositive(n, k - 1); }
  }

  /** With every size done, the allocator's invariant holds: nothing handed out, and
      the reserved smallest blocks as marks. */
  lemma InitEstablishesInv(bd: Books, meta: nat, end: nat)
    requires Marked(bd, meta, end) && FreedBelow(bd, bd.max) && 0 < meta < Pow2(bd.max)
    ensures Inv(bd, {}, Leaves(bd))
  {
    CeilPositive(meta, bd.max);
    forall x ensures At(bd, x) {
      assert MarkedAt(bd, meta, end, x) && MarkedAt(bd, meta, end, Parent(x));
      ReservedUp(meta, end, x);
      if Ok(bd.max, x) && x.k < bd.max { OkParent(bd.max, x); }
      if Ok(bd.max, x) && x.k > 0 {
        OkChildren(bd.max, x);
        assert MarkedAt(bd, meta, end, Left(x)) && MarkedAt(bd, meta, end, Right(x));
      }
    }
    forall x ensures x in bd.alloc - bd.split <==> x in Leaves(bd) {
      assert MarkedAt(bd, meta, end, x);
    }
    assert bd.alloc - bd.split == {} + Leaves(bd);
    assert MarkedAt(bd, meta, end, Blk(0, 0));
    assert Blk(0, 0) in Leaves(bd);
  }

  /** What bd_initfree pushes in the round for size k: from the left pair, then the right. */
  function FirstFreed(bd: Books, meta: nat, k: nat): set<Blk> {
    FreeOfPair(bd, LeftBlk(meta, k))
  }

  function SecondFreed(bd: Books, meta: nat, end: nat, k: nat): set<Blk> {
    if Floor(end, k) > Ceil(meta, k) then FreeOfPair(bd, RightBlk(end, k)) else {}
  }

  function Freed(bd: Books, meta: nat, end: nat, k: nat): set<Blk> {
    if k == 0 then {} else Freed(bd, meta, end, k - 1) + FirstFreed(bd, meta, k - 1) + SecondFreed(bd, meta, end, k - 1)
  }

  lemma {:induction false} FreedMonotone(bd: Books, meta: nat, end: nat, j: nat, k: nat)
    requires j <= k
    ensures Freed(bd, meta, end, j) <= Freed(bd, meta, end, k)
  {
    if j < k { FreedMonotone(bd, meta, end, j, k - 1); }
  }

  /** The rounds below k push exactly the blocks of those sizes that exist and are not allocated. */
  lemma {:induction false} FreedIs(bd: Books, meta: nat, end: nat, k: nat)
    requires Marked(bd, meta, end) && Layout(bd.max, meta, end) && k <= bd.max
    ensures FreedBelow(bd.(free := Freed(bd, meta, end, k)), k)
  {
    var bd' := bd.(free := Freed(bd, meta, end, k));
    if k > 0 {
      FreedIs(bd, meta, end, k - 1);
      LayoutFits(bd.max, meta, end, k - 1);
      SizeComplete(bd, meta, end, k - 1);
      var before := bd.(free := Freed(bd, meta, end, k - 1));
      var round := FirstFreed(bd, meta, k - 1) + SecondFreed(bd, meta, end, k - 1);
      forall x: Blk ensures x in bd'.free <==> Ok(bd.max, x) && Exists(bd', x) && x !in bd.alloc && x.k < k {
        assert x in bd'.free <==> x in before.free || x in round;
      }
    }
  }

  /** The books bd_init ends with satisfy the allocator's invariant. */
  lemma FinalInv(bd: Books, meta: nat, end: nat)
    requires Marked(bd, meta, end) && Layout(bd.max, meta, end)
    ensures Inv(bd.(free := Freed(bd, meta, end, bd.max)), {}, Leaves(bd))
  {
    var bd' := bd.(free := Freed(bd, meta, end, bd.max));
    FreedIs(bd, meta, end, bd.max);
    LayoutFits(bd.max, meta, end, 0);
    forall x ensures MarkedAt(bd', meta, end, x) { assert MarkedAt(bd, meta, end, x); }
    InitEstablishesInv(bd', meta, end);
    assert Leaves(bd') == Leaves(bd);
  }

  // ----- the amount freed -----

  /** What one round of bd_initfree adds to its total. */
  function Added(meta: nat, end: nat, k: nat): nat {
    var l, r := Ceil(meta, k), Floor(end, k);
    (if l < r && (l % 2 == 1 || r == l + 1) then Pow2(k) else 0) + (if l < r && r % 2 == 1 then Pow2(k) else 0)
  }

  function Total(meta: nat, end: nat, k: nat): nat {
    if k == 0 then 0 else Total(meta, end, k - 1) + Added(meta, end, k - 1)
  }

  /** The smallest blocks in n blocks of size k. */
  function Span(n: nat, k: nat): nat {
    n * Pow2(k)
  }

  lemma SpanNext(n: nat, k: nat)
    ensures Span(n + 1, k) == Span(n, k) + Pow2(k) && Span(n, k + 1) == Span(2 * n, k)
  {
  }

  lemma CeilStep(n: nat, k: nat)
    ensures Ceil(n, k + 1) == (Ceil(n, k) + 1) / 2
    ensures Span(Ceil(n, k + 1), k + 1) == Span(Ceil(n, k), k) + if Ceil(n, k) % 2 == 1 then Pow2(k) else 0
  {
    hide Span;
    SpanNext(Ceil(n, k + 1), k);
    SpanNext(Ceil(n, k), k);
  }

  lemma FloorStep(n: nat, k: nat)
    ensures Floor(n, k + 1) == Floor(n, k) / 2
    ensures Span(Floor(n, k + 1), k + 1) == Span(Floor(n, k), k) - if Floor(n, k) % 2 == 1 then Pow2(k) else 0
  {
    hide Span;
    SpanNext(Floor(n, k + 1), k);
    SpanNext(2 * Floor(n, k + 1), k);
  }

  /** Sizes below k have freed everything but the stretch of whole size-k blocks in the
      middle, or everything, plus what was counted twice. */
  ghost predicate Accounted(meta: nat, end: nat, k: nat, extra: nat) {
    var l, r := Ceil(meta, k), Floor(end, k);
    if l <= r then Total(meta, end, k) == (Span(l, k) - meta) + (end - Span(r, k)) + extra
    else Total(meta, end, k) == end - meta + extra
  }

  lemma TotalStep(meta: nat, end: nat, k: nat)
    ensures Total(meta, end, k + 1) == Total(meta, end, k) + Added(meta, end, k)
  {
  }

  lemma AccountedStep(meta: nat, end: nat, k: nat, extra: nat)
    requires Accounted(meta, end, k, extra)
    ensures Accounted(meta, end, k + 1, extra + if Twice(meta, end, k) then Pow2(k) else 0)
  {
    hide Pow2, Span, Total, Ceil, Floor;
    var l, r := Ceil(meta, k), Floor(end, k);
    CeilStep(meta, k);
    FloorStep(end, k);
    TotalStep(meta, end, k);
    SpanNext(l, k);
    StepArithmetic(l, r, Pow2(k), Span(l, k), Span(r, k), meta, end, extra);
  }

  lemma StepArithmetic(l: nat, r: nat, p: nat, lp: nat, rp: nat, meta: nat, end: nat, extra: nat)
    requires (r == l ==> rp == lp) && (r == l + 1 ==> rp == lp + p)
    ensures var t := if l <= r then (lp - meta) + (end - rp) + extra else end - meta + extra;
            var t' := t + (if l < r && (l % 2 == 1 || r == l + 1) then p else 0) + (if l < r && r % 2 == 1
              then p else 0);
            var lp' := lp + if l % 2 == 1 then p else 0;
            var rp' := rp - if r % 2 == 1 then p else 0;
            var extra' := extra + if l % 2 == 0 && r == l + 1 then p else 0;
            t' == if (l + 1) / 2 <= r / 2 then (lp' - meta) + (end - rp') + extra' else end - meta + extra'
  {
  }

  lemma {:induction false} AccountedTo(meta: nat, end: nat, k: nat) returns (extra: nat)
    requires meta <= end
    ensures Accounted(meta, end, k, extra)
    ensures extra == 0 <==> forall j :: 0 <= j < k ==> !Twice(meta, end, j)
  {
    if k == 0 {
      extra := 0;
    } else {
      var e := AccountedTo(meta, end, k - 1);
      AccountedStep(meta, end, k - 1, e);
      extra := e + if Twice(meta, end, k - 1) then Pow2(k - 1) else 0;
      if extra == 0 {
        forall j | 0 <= j < k ensures !Twice(meta, end, j) { }
      }
    }
  }

  lemma {:induction false} FloorTop(n: nat, max: nat, k: nat)
    requires n < Pow2(max) && k <= max
    ensures Floor(n, k) < Pow2(max - k)
  {
    if k > 0 {
      FloorTop(n, max, k - 1);
      assert Pow2(max - (k - 1)) == 2 * Pow2(max - k);
    }
  }

  /** The total that bd_init checks is the size of the range between the reserved parts
      exactly when no size has its two pairs coincide. */
  lemma TotalCondition(max: nat, meta: nat, end: nat)
    requires 0 < meta <= end < Pow2(max)
    ensures Total(meta, end, max) == end - meta <==> PairsOnce(max, meta, end)
  {
    var extra := AccountedTo(meta, end, max);
    CeilPositive(meta, max);
    FloorTop(end, max, max);
  }

  lemma {:induction false} CeilBound(n: nat, m: nat, k: nat)
    requires n <= Pow2(m) && k <= m
    ensures Ceil(n, k) <= Pow2(m - k)
  {
    if k > 0 {
      CeilBound(n, m, k - 1);
      assert Pow2(m - (k - 1)) == 2 * Pow2(m - k);
    }
  }

  lemma {:induction false} FloorBound(n: nat, m: nat, k: nat)
    requires n >= Pow2(m) && k <= m
    ensures Floor(n, k) >= Pow2(m - k)
  {
    if k > 0 {
      FloorBound(n, m, k - 1);
      assert Pow2(m - (k - 1)) == 2 * Pow2(m - k);
    }
  }

  lemma LayoutFits(max: nat, meta: nat, end: nat, k: nat)
    requires Layout(max, meta, end) && k < max
    ensures Fits(max, meta, end, k) && !Twice(meta, end, k) && meta < end
  {
    FloorTop(end, max, k);
    CeilBound(meta, max - 1, k);
    assert Pow2(max - k) == 2 * Pow2(max - 1 - k);
  }

  /** Metadata in the first quarter and an end in the second half rule out double visits. */
  lemma QuarterSuffices(max: nat, meta: nat, end: nat)
    requires max >= 2 && 0 < meta <= Pow2(max - 2) && Pow2(max - 1) <= end < Pow2(max)
    ensures Layout(max, meta, end)
  {
    assert Pow2(max - 1) == 2 * Pow2(max - 2);
    forall k | 0 <= k < max ensures !Twice(meta, end, k) {
      FloorBound(end, max - 1, k);
      if k <= max - 2 {
        CeilBound(meta, max - 2, k);
        assert Pow2(max - 1 - k) == 2 * Pow2(max - 2 - k);
      } else {
        CeilBound(meta, max - 2, max - 2);
        assert Ceil(meta, max - 1) == (Ceil(meta, max - 2) + 1) / 2;
        CeilPositive(meta, max - 2);
      }
    }
  }

  /** One round adds the sizes of the blocks it pushes. */
  lemma AddedIs(bd: Books, meta: nat, end: nat, k: nat)
    requires Marked(bd, meta, end) && Fits(bd.max, meta, end, k)
    ensures Added(meta, end, k) == (if FirstFreed(bd, meta, k) == {} then 0 else Pow2(k))
            + (if SecondFreed(bd, meta, end, k) == {} then 0 else Pow2(k))
  {
    hide FreeOfPair, Pow2, Marked, Ceil, Floor, Ok;
    LeftPair(bd, meta, end, k);
    if Floor(end, k) > Ceil(meta, k) { RightPair(bd, meta, end, k); }
  }

  // ----- index arithmetic of bd_mark -----

  lemma {:induction false} FloorCeil(n: nat, k: nat)
    ensures Span(Floor(n, k), k) <= n
    ensures Ceil(n, k) == Floor(n, k) + if Span(Floor(n, k), k) == n then 0 else 1
  {
    hide Span, Pow2;
    if k == 0 {
      SpanZero(n);
    } else {
      FloorCeil(n, k - 1);
      FloorStep(n, k - 1);
    }
  }

  lemma SpanZero(n: nat)
    ensures Span(n, 0) == n
  {
  }
}
