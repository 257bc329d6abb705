/**
 The buddy allocator's books: which blocks are split, which are allocated, which
 are on a free list. Block (k, b) is the b-th block of size k; its halves are
 (k - 1, 2b) and (k - 1, 2b + 1). The largest size has one block, (max, 0).
 */
module BuddySpec {

  datatype Blk = Blk(k: nat, b: nat)

  datatype Books = Books(max: nat, alloc: set<Blk>, split: set<Blk>, free: set<Blk>)

  function Pow2(n: nat): (r: nat)
    ensures r > 0
  {
    if n == 0 then 1 else 2 * Pow2(n - 1)
  }

  /** A block of a heap whose largest size is max. */
  predicate Ok(max: nat, x: Blk) {
    x.k <= max && x.b < Pow2(max - x.k)
  }

  function Parent(x: Blk): Blk {
    Blk(x.k + 1, x.b / 2)
  }

  function Buddy(x: Blk): Blk {
    Blk(x.k, if x.b % 2 == 0 then x.b + 1 else x.b - 1)
  }

  function Left(x: Blk): Blk
    requires x.k > 0
  {
    Blk(x.k - 1, 2 * x.b)
  }

  function Right(x: Blk): Blk
    requires x.k > 0
  {
    Blk(x.k - 1, 2 * x.b + 1)
  }

  lemma OkParent(max: nat, x: Blk)
    requires Ok(max, x) && x.k < max
    ensures Ok(max, Parent(x)) && Ok(max, Buddy(x)) && Parent(Buddy(x)) == Parent(x) && Buddy(Buddy(x)) == x
    ensures {Left(Parent(x)), Right(Parent(x))} == {x, Buddy(x)}
  {
    assert Pow2(max - x.k) == 2 * Pow2(max - x.k - 1);
  }

  lemma OkChildren(max: nat, x: Blk)
    requires Ok(max, x) && x.k > 0
    ensures Ok(max, Left(x)) && Ok(max, Right(x)) && Parent(Left(x)) == x && Parent(Right(x)) == x
    ensures Buddy(Left(x)) == Right(x) && Buddy(Right(x)) == Left(x)
  {
    assert Pow2(max - (x.k - 1)) == 2 * Pow2(max - x.k);
  }

  /** The block is there as a unit of its own: its parent has been split. */
  predicate Exists(bd: Books, x: Blk) {
    x.k == bd.max || Parent(x) in bd.split
  }

  /** What the books say about one block. */
  predicate At(bd: Books, x: Blk) {
    && (x in bd.alloc ==> Ok(bd.max, x))
    // on a free list exactly when it exists and is not allocated
    && (x in bd.free <==> Ok(bd.max, x) && Exists(bd, x) && x !in bd.alloc)
    && (x in bd.split ==> x in bd.alloc && x.k > 0)
    && (x in bd.alloc && x.k < bd.max ==> Parent(x) in bd.split)
    // no two buddies are both free
    && (x in bd.split && x.k > 0 ==> Left(x) in bd.alloc || Right(x) in bd.alloc)
  }

  /** The invariant. `live` are the blocks handed out, `marks` the smallest blocks
      that initialisation reserved for good. */
  ghost predicate Inv(bd: Books, live: set<Blk>, marks: set<Blk>) {
    && (forall x {:trigger At(bd, x)} :: At(bd, x))
    && bd.alloc - bd.split == live + marks && live !! marks
    && (forall x :: x in marks ==> x.k == 0) && marks != {}
  }

  // ----- the four moves of bd_malloc and bd_free -----

  /** Pop a free block and mark it allocated. */
  function Take(bd: Books, x: Blk): Books {
    bd.(alloc := bd.alloc + {x}, free := bd.free - {x})
  }

  /** Split an allocated block, keep its left half allocated and free the other. */
  function Halve(bd: Books, x: Blk): Books
    requires x.k > 0
  {
    bd.(split := bd.split + {x}, alloc := bd.alloc + {Left(x)}, free := bd.free + {Right(x)})
  }

  /** Give up an allocated block whose buddy is free: the pair becomes its parent. */
  function Merge(bd: Books, x: Blk): Books {
    bd.(alloc := bd.alloc - {x}, free := bd.free - {Buddy(x)}, split := bd.split - {Parent(x)})
  }

  /** Give up an allocated block whose buddy is in use: it goes on the free list. */
  function Release(bd: Books, x: Blk): Books {
    bd.(alloc := bd.alloc - {x}, free := bd.free + {x})
  }

  lemma TakeInv(bd: Books, live: set<Blk>, marks: set<Blk>, x: Blk)
    requires Inv(bd, live, marks) && x in bd.free
    ensures Inv(Take(bd, x), live + {x}, marks) && x !in live
  {
    var bd' := Take(bd, x);
    assert At(bd, x);
    forall y ensures At(bd', y) {
      assert At(bd, y);
    }
    assert bd'.alloc - bd'.split == live + {x} + marks;
  }

  lemma ChildrenAbsent(bd: Books, live: set<Blk>, marks: set<Blk>, x: Blk)
    requires Inv(bd, live, marks) && Ok(bd.max, x) && x.k > 0 && x !in bd.split
    ensures Left(x) !in bd.alloc && Right(x) !in bd.alloc && Left(x) !in bd.free && Right(x) !in bd.free
    ensures Left(x) !in bd.split && Right(x) !in bd.split
  {
    OkChildren(bd.max, x);
    assert At(bd, Left(x)) && At(bd, Right(x));
  }

  lemma HalveInv(bd: Books, live: set<Blk>, marks: set<Blk>, x: Blk)
    requires Inv(bd, live, marks) && x in live && x.k > 0
    ensures Inv(Halve(bd, x), live - {x} + {Left(x)}, marks)
  {
    var bd' := Halve(bd, x);
    assert At(bd, x);
    OkChildren(bd.max, x);
    ChildrenAbsent(bd, live, marks, x);
    forall y ensures At(bd', y) {
      assert At(bd, y);
      if y.k < bd.max && Ok(bd.max, y) && Parent(y) == x { OkParent(bd.max, y); }
    }
    assert bd'.alloc - bd'.split == live - {x} + {Left(x)} + marks;
  }

  lemma MergeInv(bd: Books, live: set<Blk>, marks: set<Blk>, x: Blk)
    requires Inv(bd, live, marks) && x in live && x.k < bd.max && Buddy(x) !in bd.alloc
    ensures Inv(Merge(bd, x), live - {x} + {Parent(x)}, marks) && Buddy(x) in bd.free
  {
    var bd' := Merge(bd, x);
    assert At(bd, x) && At(bd, Parent(x)) && At(bd, Buddy(x));
    OkParent(bd.max, x);
    forall y ensures At(bd', y) {
      assert At(bd, y);
      if y.k < bd.max && Ok(bd.max, y) && Parent(y) == Parent(x) { assert y == x || y == Buddy(x); }
      if y in bd.split { OkChildren(bd.max, y); }
    }
    assert bd'.alloc - bd'.split == live - {x} + {Parent(x)} + marks;
  }

  lemma ReleaseInv(bd: Books, live: set<Blk>, marks: set<Blk>, x: Blk)
    requires Inv(bd, live, marks) && x in live && x.k < bd.max && Buddy(x) in bd.alloc
    ensures Inv(Release(bd, x), live - {x}, marks)
  {
    var bd' := Release(bd, x);
    assert At(bd, x);
    OkParent(bd.max, x);
    forall y ensures At(bd', y) {
      assert At(bd, y);
      if y in bd.split { OkChildren(bd.max, y); }
    }
    assert bd'.alloc - bd'.split == live - {x} + marks;
  }

  // ----- what the invariant says about the whole heap -----

  /** The block n sizes up that contains x; and "y lies in x". */
  function Up(x: Blk, n: nat): (r: Blk)
    ensures r.k == x.k + n
    decreases n
  {
    if n == 0 then x else Up(Parent(x), n - 1)
  }

  predicate Within(y: Blk, x: Blk) {
    y.k <= x.k && Up(y, x.k - y.k) == x
  }

  lemma {:induction false} UpPlus(x: Blk, m: nat, n: nat)
    ensures Up(Up(x, m), n) == Up(x, m + n)
    decreases m
  {
    if m > 0 { UpPlus(Parent(x), m - 1, n); }
  }

  lemma {:induction false} UpOk(max: nat, x: Blk, n: nat)
    requires Ok(max, x) && x.k + n <= max
    ensures Ok(max, Up(x, n))
    decreases n
  {
    if n > 0 {
      OkParent(max, x);
      UpOk(max, Parent(x), n - 1);
    }
  }

  lemma WithinTrans(z: Blk, y: Blk, x: Blk)
    requires Within(z, y) && Within(y, x)
    ensures Within(z, x)
  {
    UpPlus(z, y.k - z.k, x.k - y.k);
  }

  /** Of two blocks that contain z, the smaller lies in the larger. */
  lemma WithinChain(z: Blk, y: Blk, x: Blk)
    requires Within(z, y) && Within(z, x) && y.k <= x.k
    ensures Within(y, x)
  {
    UpPlus(z, y.k - z.k, x.k - y.k);
  }

  /** Everything above a block in use, or above one that exists, is split. */
  lemma {:induction false} AboveSplit(bd: Books, live: set<Blk>, marks: set<Blk>, x: Blk, n: nat)
    requires Inv(bd, live, marks) && Exists(bd, x) && n > 0 && x.k + n <= bd.max
    ensures Up(x, n) in bd.split
    decreases n
  {
    var p := Parent(x);
    assert At(bd, p);
    if n > 1 {
      AboveSplit(bd, live, marks, p, n - 1);
    }
  }

  lemma InUseExists(bd: Books, live: set<Blk>, marks: set<Blk>, x: Blk)
    requires Inv(bd, live, marks) && x in bd.alloc
    ensures Ok(bd.max, x) && Exists(bd, x)
  {
    assert At(bd, x);
  }

  /** Below every split block something is in use. */
  lemma {:induction false} SomeInUse(bd: Books, live: set<Blk>, marks: set<Blk>, x: Blk) returns (t: Blk)
    requires Inv(bd, live, marks) && x in bd.split
    ensures t in live + marks && t.k < x.k && Within(t, x)
    decreases x.k
  {
    assert At(bd, x);
    var c := if Left(x) in bd.alloc then Left(x) else Right(x);
    assert Within(c, x) by { assert Up(c, 1) == Up(Parent(c), 0); }
    if c in bd.split {
      t := SomeInUse(bd, live, marks, c);
      WithinTrans(t, c, x);
    } else {
      t := c;
    }
  }

  /** A block is split exactly when some smaller block in use, handed out or reserved, lies in it. */
  lemma SplitIff(bd: Books, live: set<Blk>, marks: set<Blk>, x: Blk)
    requires Inv(bd, live, marks) && Ok(bd.max, x)
    ensures x in bd.split <==> exists t :: t in live + marks && t.k < x.k && Within(t, x)
  {
    if x in bd.split {
      var t := SomeInUse(bd, live, marks, x);
    }
    forall t | t in live + marks && t.k < x.k && Within(t, x) ensures x in bd.split {
      InUseExists(bd, live, marks, t);
      AboveSplit(bd, live, marks, t, x.k - t.k);
    }
  }

  /** The books are a function of what is in use: however the heap came to hold the
      blocks `live`, the bits and the free lists are the same. */
  lemma Canonical(bd: Books, bd': Books, live: set<Blk>, marks: set<Blk>)
    requires Inv(bd, live, marks) && Inv(bd', live, marks) && bd.max == bd'.max
    ensures bd == bd'
  {
    forall x ensures x in bd.split <==> x in bd'.split {
      assert At(bd, x) && At(bd', x);
      if Ok(bd.max, x) {
        SplitIff(bd, live, marks, x);
        SplitIff(bd', live, marks, x);
      }
    }
    assert bd.split == bd'.split;
    forall x ensures (x in bd.alloc <==> x in bd'.alloc) && (x in bd.free <==> x in bd'.free) {
      assert At(bd, x) && At(bd', x);
      assert x in bd.alloc - bd.split <==> x in bd'.alloc - bd'.split;
    }
    assert bd.alloc == bd'.alloc && bd.free == bd'.free;
  }

  /** A unit of the partition: a free block, a block handed out, or a reserved one. */
  predicate Unit(bd: Books, live: set<Blk>, marks: set<Blk>, t: Blk) {
    t in bd.free || t in live || t in marks
  }

  lemma UnitFacts(bd: Books, live: set<Blk>, marks: set<Blk>, t: Blk)
    requires Inv(bd, live, marks)
    ensures Unit(bd, live, marks, t) <==> Ok(bd.max, t) && Exists(bd, t) && t !in bd.split
  {
    assert At(bd, t);
    assert t in bd.alloc - bd.split <==> t in live + marks;
  }

  lemma {:induction false} FindUnit(bd: Books, live: set<Blk>, marks: set<Blk>, y: Blk, x: Blk) returns (t: Blk)
    requires Inv(bd, live, marks) && y.k == 0 && Ok(bd.max, y) && Exists(bd, x) && Within(y, x) && x.k <= bd.max
    ensures Unit(bd, live, marks, t) && Within(y, t)
    decreases x.k
  {
    UpOk(bd.max, y, x.k);
    UnitFacts(bd, live, marks, x);
    if x in bd.split {
      assert At(bd, x);
      var z := Up(y, x.k - 1);
      UpPlus(y, x.k - 1, 1);
      assert Parent(z) == Up(z, 1) == x by { assert Up(z, 1) == Up(Parent(z), 0); }
      t := FindUnit(bd, live, marks, y, z);
    } else {
      t := x;
    }
  }

  /** Free blocks, blocks handed out and reserved blocks partition the heap: every
      smallest block lies in one and only one of them. */
  lemma Partition(bd: Books, live: set<Blk>, marks: set<Blk>, y: Blk)
    requires Inv(bd, live, marks) && y.k == 0 && Ok(bd.max, y)
    ensures exists t :: Unit(bd, live, marks, t) && Within(y, t)
    ensures forall t, u :: Unit(bd, live, marks, t) && Within(y, t) && Unit(bd, live, marks, u) && Within(y, u) ==>
                           t == u
  {
    UpOk(bd.max, y, bd.max);
    var t := FindUnit(bd, live, marks, y, Up(y, bd.max));
    forall t, u | Unit(bd, live, marks, t) && Within(y, t) && Unit(bd, live, marks, u) && Within(y, u) ensures t == u {
      if t.k <= u.k { OneUnit(bd, live, marks, y, t, u); } else { OneUnit(bd, live, marks, y, u, t); }
    }
  }

  lemma OneUnit(bd: Books, live: set<Blk>, marks: set<Blk>, y: Blk, t: Blk, u: Blk)
    requires Inv(bd, live, marks) && Unit(bd, live, marks, t) && Unit(bd, live, marks, u)
    requires Within(y, t) && Within(y, u) && t.k <= u.k
    ensures t == u
  {
    UnitFacts(bd, live, marks, t);
    UnitFacts(bd, live, marks, u);
    WithinChain(y, t, u);
    if t.k < u.k { AboveSplit(bd, live, marks, t, u.k - t.k); }
  }

  /** No block handed out or reserved shares a byte with x. */
  ghost predicate Unoccupied(live: set<Blk>, marks: set<Blk>, x: Blk) {
    forall t :: t in live + marks ==> !Within(t, x) && !Within(x, t)
  }

  lemma {:induction false} FreeAbove(bd: Books, live: set<Blk>, marks: set<Blk>, x: Blk) returns (z: Blk)
    requires Inv(bd, live, marks) && Ok(bd.max, x) && x !in bd.split
    requires forall t :: t in live + marks ==> !Within(x, t)
    ensures z in bd.free && Within(x, z)
    decreases bd.max - x.k
  {
    assert At(bd, x);
    if Exists(bd, x) {
      assert Within(x, x);
      assert x !in bd.alloc by { assert x in bd.alloc ==> x in bd.alloc - bd.split; }
      z := x;
    } else {
      OkParent(bd.max, x);
      assert Within(x, Parent(x)) by { assert Up(x, 1) == Up(Parent(x), 0); }
      forall t | t in live + marks ensures !Within(Parent(x), t) {
        if Within(Parent(x), t) { WithinTrans(x, Parent(x), t); }
      }
      z := FreeAbove(bd, live, marks, Parent(x));
      WithinTrans(x, Parent(x), z);
    }
  }

  function Leftmost(x: Blk, k: nat): (r: Blk)
    requires k <= x.k
    ensures r.k == k
    decreases x.k
  {
    if x.k == k then x else Leftmost(Left(x), k)
  }

  lemma {:induction false} LeftmostWithin(max: nat, x: Blk, k: nat)
    requires k <= x.k && Ok(max, x)
    ensures Ok(max, Leftmost(x, k)) && Within(Leftmost(x, k), x)
    decreases x.k
  {
    if x.k > k {
      OkChildren(max, x);
      LeftmostWithin(max, Left(x), k);
      assert Within(Left(x), x) by { assert Up(Left(x), 1) == Up(Parent(Left(x)), 0); }
      WithinTrans(Leftmost(x, k), Left(x), x);
    }
  }

  lemma FreeUnoccupied(bd: Books, live: set<Blk>, marks: set<Blk>, z: Blk, x: Blk)
    requires Inv(bd, live, marks) && z in bd.free && Within(x, z)
    ensures Unoccupied(live, marks, x)
  {
    UnitFacts(bd, live, marks, z);
    forall t | t in live + marks ensures !Within(t, x) && !Within(x, t) {
      UnitFacts(bd, live, marks, t);
      assert At(bd, z);
      if Within(t, x) {
        WithinTrans(t, x, z);
        if t.k < z.k { AboveSplit(bd, live, marks, t, z.k - t.k); }
      } else if Within(x, t) {
        if t.k <= z.k { OneUnit(bd, live, marks, x, t, z); } else { OneUnit(bd, live, marks, x, z, t); }
      }
    }
  }

  /** Completeness: the search of bd_malloc for a free block of size k or larger
      succeeds exactly when some aligned block of size k is wholly unoccupied. */
  lemma SearchComplete(bd: Books, live: set<Blk>, marks: set<Blk>, k: nat)
    requires Inv(bd, live, marks)
    ensures (exists z :: z in bd.free && z.k >= k) <==>
            (exists x: Blk :: x.k == k && Ok(bd.max, x) && Unoccupied(live, marks, x))
  {
    if z :| z in bd.free && z.k >= k {
      assert At(bd, z);
      LeftmostWithin(bd.max, z, k);
      FreeUnoccupied(bd, live, marks, z, Leftmost(z, k));
    }
    if x: Blk :| x.k == k && Ok(bd.max, x) && Unoccupied(live, marks, x) {
      SplitIff(bd, live, marks, x);
      var z := FreeAbove(bd, live, marks, x);
    }
  }

  /** Something is always reserved, so the largest block is always split ... */
  lemma TopSplit(bd: Books, live: set<Blk>, marks: set<Blk>)
    requires Inv(bd, live, marks)
    ensures if bd.max == 0 then Blk(0, 0) in marks else Blk(bd.max, 0) in bd.split
  {
    var m :| m in marks;
    assert m in bd.alloc - bd.split;
    InUseExists(bd, live, marks, m);
    UpOk(bd.max, m, bd.max);
    if bd.max > 0 {
      AboveSplit(bd, live, marks, m, bd.max);
    }
  }

  /** ... and no live block has the largest size. */
  lemma LiveBelowTop(bd: Books, live: set<Blk>, marks: set<Blk>, x: Blk)
    requires Inv(bd, live, marks) && x in live
    ensures x.k < bd.max && Parent(x) in bd.split && x in bd.alloc && x !in bd.split
  {
    assert x in bd.alloc - bd.split;
    TopSplit(bd, live, marks);
    InUseExists(bd, live, marks, x);
  }

  /** size(p): the blocks at p of every size up to the live one are not split, and
      the next larger one is. */
  lemma {:induction false} SizeFound(bd: Books, live: set<Blk>, marks: set<Blk>, x: Blk, k: nat)
    requires Inv(bd, live, marks) && x in live && k <= x.k
    ensures Leftmost(x, k) !in bd.split
  {
    LiveBelowTop(bd, live, marks, x);
    InUseExists(bd, live, marks, x);
    LeftmostWithin(bd.max, x, k);
    var y := Leftmost(x, k);
    if y in bd.split {
      var t := SomeInUse(bd, live, marks, y);
      WithinTrans(t, y, x);
      InUseExists(bd, live, marks, t);
      AboveSplit(bd, live, marks, t, x.k - t.k);
    }
  }

  // ----- bd_malloc and bd_free as wholes -----

  /** Split the live block x down to size k. */
  ghost function SplitDown(bd: Books, x: Blk, k: nat): Books
    requires k <= x.k
    decreases x.k
  {
    if x.k == k then bd else SplitDown(Halve(bd, x), Left(x), k)
  }

  lemma {:induction false} SplitDownInv(bd: Books, live: set<Blk>, marks: set<Blk>, x: Blk, k: nat)
    requires Inv(bd, live, marks) && x in live && k <= x.k
    ensures Inv(SplitDown(bd, x, k), live - {x} + {Leftmost(x, k)}, marks)
    ensures x.k == k || Leftmost(x, k) !in live
    decreases x.k
  {
    if x.k > k {
      HalveInv(bd, live, marks, x);
      LiveBelowTop(bd, live, marks, x);
      var live' := live - {x} + {Left(x)};
      SplitDownInv(Halve(bd, x), live', marks, Left(x), k);
      assert live' - {Left(x)} + {Leftmost(x, k)} == live - {x} + {Leftmost(x, k)} by {
        InUseExists(bd, live, marks, x);
        ChildrenAbsent(bd, live, marks, x);
        assert Left(x) !in live by { assert Left(x) !in bd.alloc - bd.split; }
      }
      assert Leftmost(x, k) == Leftmost(Left(x), k);
      assert Leftmost(x, k) !in live by {
        InUseExists(bd, live, marks, x);
        ChildrenAbsent(bd, live, marks, x);
        assert Left(x) !in live by { assert Left(x) !in bd.alloc - bd.split; }
      }
    } else {
      assert live - {x} + {x} == live;
    }
  }

  /** Free block x: merge upwards while the buddy is free. */
  ghost function FreeUp(bd: Books, x: Blk): Books
    decreases bd.max - x.k
  {
    if x.k >= bd.max || Buddy(x) in bd.alloc then Release(bd, x) else FreeUp(Merge(bd, x), Parent(x))
  }

  lemma {:induction false} FreeUpInv(bd: Books, live: set<Blk>, marks: set<Blk>, x: Blk)
    requires Inv(bd, live, marks) && x in live
    ensures Inv(FreeUp(bd, x), live - {x}, marks) && FreeUp(bd, x).max == bd.max
    decreases bd.max - x.k
  {
    LiveBelowTop(bd, live, marks, x);
    if Buddy(x) in bd.alloc {
      ReleaseInv(bd, live, marks, x);
    } else {
      MergeInv(bd, live, marks, x);
      assert Parent(x) !in live by { assert Parent(x) !in bd.alloc - bd.split; }
      FreeUpInv(Merge(bd, x), live - {x} + {Parent(x)}, marks, Parent(x));
      assert live - {x} + {Parent(x)} - {Parent(x)} == live - {x};
    }
  }

  /** A run of allocations and frees. An allocation of size k takes whichever free
      block its list search finds; a free names a block that was handed out. */
  datatype Request = Malloc(from: Blk, k: nat) | Free(x: Blk)

  ghost predicate Allowed(bd: Books, live: set<Blk>, r: Request) {
    match r
    case Malloc(z, k) => z in bd.free && k <= z.k
    case Free(x) => x in live
  }

  ghost function After(bd: Books, r: Request): Books
    requires r.Malloc? ==> r.k <= r.from.k
  {
    match r
    case Malloc(z, k) => SplitDown(Take(bd, z), z, k)
    case Free(x) => FreeUp(bd, x)
  }

  ghost function LiveAfter(live: set<Blk>, r: Request): set<Blk>
    requires r.Malloc? ==> r.k <= r.from.k
  {
    match r
    case Malloc(z, k) => live + {Leftmost(z, k)}
    case Free(x) => live - {x}
  }

  lemma RequestInv(bd: Books, live: set<Blk>, marks: set<Blk>, r: Request)
    requires Inv(bd, live, marks) && Allowed(bd, live, r)
    ensures Inv(After(bd, r), LiveAfter(live, r), marks) && After(bd, r).max == bd.max
    ensures r.Malloc? ==> Leftmost(r.from, r.k) !in live
  {
    match r
    case Malloc(z, k) =>
      TakeInv(bd, live, marks, z);
      SplitDownInv(Take(bd, z), live + {z}, marks, z, k);
      SplitDownMax(Take(bd, z), z, k);
      assert live + {z} - {z} + {Leftmost(z, k)} == live + {Leftmost(z, k)};
    case Free(x) => FreeUpInv(bd, live, marks, x);
  }

  lemma {:induction false} SplitDownMax(bd: Books, x: Blk, k: nat)
    requires k <= x.k
    ensures SplitDown(bd, x, k).max == bd.max
    decreases x.k
  {
    if x.k > k { SplitDownMax(Halve(bd, x), Left(x), k); }
  }

  ghost predicate Run(bd: Books, live: set<Blk>, rs: seq<Request>, bd': Books, live': set<Blk>)
    decreases |rs|
  {
    if rs == [] then bd' == bd && live' == live
    else Allowed(bd, live, rs[0]) && Run(After(bd, rs[0]), LiveAfter(live, rs[0]), rs[1..], bd', live')
  }

  lemma {:induction false} RunInv(bd: Books, live: set<Blk>, marks: set<Blk>, rs: seq<Request>, bd': Books,
                                  live': set<Blk>)
    requires Inv(bd, live, marks) && Run(bd, live, rs, bd', live')
    ensures Inv(bd', live', marks) && bd'.max == bd.max
    decreases |rs|
  {
    if rs != [] {
      RequestInv(bd, live, marks, rs[0]);
      RunInv(After(bd, rs[0]), LiveAfter(live, rs[0]), marks, rs[1..], bd', live');
    }
  }

  /** Whatever is allocated and freed in between and in whatever order, once the same
      blocks are in use again the bits and free sets are what they were. */
  lemma FreeingRestores(bd: Books, live: set<Blk>, marks: set<Blk>, rs: seq<Request>, bd': Books)
    requires Inv(bd, live, marks) && Run(bd, live, rs, bd', live)
    ensures bd' == bd
  {
    RunInv(bd, live, marks, rs, bd', live);
    Canonical(bd, bd', live, marks);
  }
}
