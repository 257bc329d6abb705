/**
 The books of the user-level allocator. Addresses and sizes are counted in
 units of one header. `free` and `live` give the sizes of the free and of the
 allocated blocks by address; `heap` is every unit ever obtained from the kernel.
 */
module UmallocSpec {

  datatype Books = Books(base: nat, free: map<nat, nat>, live: map<nat, nat>, heap: set<nat>)

  /** Two stretches of units have none in common. */
  predicate Apart(a: nat, n: nat, c: nat, m: nat) {
    a + n <= c || c + m <= a
  }

  // ----- the invariant, one clause per block, pair of blocks and unit -----

  predicate BlockAt(b: Books, a: nat) {
    && (a in b.free ==> b.free[a] > 0 && b.base < a)
    && (a in b.live ==> b.live[a] > 0 && b.base < a && a !in b.free)
  }

  /** Free blocks are apart and do not even touch; allocated ones are apart from all others. */
  predicate PairAt(b: Books, a: nat, c: nat) {
    && (a in b.free && c in b.free && a != c ==> a + b.free[a] < c || c + b.free[c] < a)
    && (a in b.live && c in b.free ==> Apart(a, b.live[a], c, b.free[c]))
    && (a in b.live && c in b.live && a != c ==> Apart(a, b.live[a], c, b.live[c]))
  }

  predicate In(blocks: map<nat, nat>, u: nat, a: nat) {
    a in blocks && a <= u < a + blocks[a]
  }

  ghost predicate Covers(blocks: map<nat, nat>, u: nat) {
    exists a: nat :: In(blocks, u, a)
  }

  /** Every unit obtained is in a free or an allocated block, and blocks hold no others. */
  ghost predicate UnitAt(b: Books, u: nat) {
    u in b.heap <==> Covers(b.free, u) || Covers(b.live, u)
  }

  ghost predicate Ok(b: Books) {
    && (forall a: nat {:trigger BlockAt(b, a)} :: BlockAt(b, a))
    && (forall a: nat, c: nat {:trigger PairAt(b, a, c)} :: PairAt(b, a, c))
    && (forall u: nat {:trigger UnitAt(b, u)} :: UnitAt(b, u))
  }

  /** No unit is in two blocks. */
  lemma OneBlock(b: Books, u: nat, a: nat, c: nat)
    requires Ok(b)
    ensures In(b.free, u, a) && In(b.free, u, c) ==> a == c
    ensures In(b.live, u, a) && In(b.live, u, c) ==> a == c
    ensures !(In(b.live, u, a) && In(b.free, u, c))
  {
    assert PairAt(b, a, c);
  }

  // ----- freeing -----

  /** An allocated block becomes free, taking in the free block just above it, if there is one. */
  function Above(b: Books, a: nat): Books
    requires a in b.live
  {
    var n := b.live[a];
    if a + n in b.free then b.(free := (b.free - {a + n})[a := n + b.free[a + n]], live := b.live - {a})
    else b.(free := b.free[a := n], live := b.live - {a})
  }

  /** The free block at p takes in the one at a, if that starts where p ends. */
  function Below(b: Books, p: nat, a: nat): Books
    requires a in b.free
  {
    if p in b.free && p + b.free[p] == a then b.(free := (b.free - {a})[p := b.free[p] + b.free[a]]) else b
  }

  /** All of the invariant, but that the free blocks at p and a may touch. */
  ghost predicate Almost(b: Books, p: nat, a: nat) {
    && a in b.free && p < a && (p in b.free ==> p + b.free[p] <= a) && p !in b.live
    && (forall x: nat {:trigger BlockAt(b, x)} :: BlockAt(b, x))
    && (forall x: nat, y: nat {:trigger PairAt(b, x, y)} :: (x, y) == (p, a) || (x, y) == (a, p) || PairAt(b, x, y))
    && (forall u: nat {:trigger UnitAt(b, u)} :: UnitAt(b, u))
  }

  /** No free block begins between p and a: p is a's neighbour below. */
  ghost predicate Neighbour(b: Books, p: nat, a: nat) {
    p < a && (forall x: nat :: x in b.free ==> x <= p || a < x) && (p in b.free || p == b.base)
  }

  lemma AboveOk(b: Books, p: nat, a: nat)
    requires Ok(b) && a in b.live && Neighbour(b, p, a)
    ensures Almost(Above(b, a), p, a)
  {
    hide UnitAt;
    var b', n := Above(b, a), b.live[a];
    assert BlockAt(b, a) && BlockAt(b, a + n) && PairAt(b, a, p) && BlockAt(b, p);
    forall x: nat ensures BlockAt(b', x) { assert BlockAt(b, x); }
    forall x: nat, y: nat ensures (x, y) == (p, a) || (x, y) == (a, p) || PairAt(b', x, y) {
      assert PairAt(b, x, y) && BlockAt(b, x) && BlockAt(b, y) && PairAt(b, a, x) && PairAt(b, a, y) && PairAt(b, x, a)
             && PairAt(b, y, a);
      assert PairAt(b, a + n, x) && PairAt(b, a + n, y) && PairAt(b, x, a + n) && PairAt(b, y, a + n);
      assert PairAt(b, p, x) && PairAt(b, p, y) && PairAt(b, x, p) && PairAt(b, y, p);
    }
    forall u: nat ensures UnitAt(b', u) { assert UnitAt(b, u); AboveUnit(b, a, u); }
  }

  lemma AboveUnit(b: Books, a: nat, u: nat)
    requires a in b.live && UnitAt(b, u) && BlockAt(b, a)
    ensures UnitAt(Above(b, a), u)
  {
    var b', n := Above(b, a), b.live[a];
    if Covers(b.free, u) {
      var x: nat :| In(b.free, u, x);
      assert In(b'.free, u, if x == a + n then a else x);
    } else if Covers(b.live, u) {
      var x: nat :| In(b.live, u, x);
      assert if x == a then In(b'.free, u, a) else In(b'.live, u, x);
    } else {
      forall x: nat ensures !In(b'.free, u, x) && !In(b'.live, u, x) {
        assert !In(b.free, u, x) && !In(b.live, u, x) && !In(b.live, u, a) && !In(b.free, u, a + n);
      }
    }
  }

  lemma BelowOk(b: Books, p: nat, a: nat)
    requires Almost(b, p, a)
    ensures Ok(Below(b, p, a))
  {
    hide UnitAt;
    var b' := Below(b, p, a);
    assert BlockAt(b, a) && BlockAt(b, p);
    forall x: nat ensures BlockAt(b', x) { assert BlockAt(b, x); }
    forall x: nat, y: nat ensures PairAt(b', x, y) {
      assert BlockAt(b, x) && BlockAt(b, y);
      BelowPair(b, p, a, x, y);
    }
    forall u: nat ensures UnitAt(b', u) { assert UnitAt(b, u); BelowUnit(b, p, a, u); }
  }

  lemma BelowPair(b: Books, p: nat, a: nat, x: nat, y: nat)
    requires Almost(b, p, a) && BlockAt(b, x) && BlockAt(b, y) && BlockAt(b, a) && BlockAt(b, p)
    ensures PairAt(Below(b, p, a), x, y)
  {
    hide UnitAt;
    assert ((x, y) == (p, a) || (x, y) == (a, p) || PairAt(b, x, y));
    assert x != p ==> PairAt(b, a, x) && PairAt(b, x, a);
    assert y != p ==> PairAt(b, a, y) && PairAt(b, y, a);
    assert x != a ==> PairAt(b, p, x) && PairAt(b, x, p);
    assert y != a ==> PairAt(b, p, y) && PairAt(b, y, p);
  }

  lemma BelowUnit(b: Books, p: nat, a: nat, u: nat)
    requires a in b.free && UnitAt(b, u) && p < a
    ensures UnitAt(Below(b, p, a), u)
  {
    var b' := Below(b, p, a);
    if b' != b {
      if Covers(b.free, u) {
        var x: nat :| In(b.free, u, x);
        assert In(b'.free, u, if x == a then p else x);
      } else {
        forall x: nat ensures !In(b'.free, u, x) { assert !In(b.free, u, x) && !In(b.free, u, a) && !In(b.free, u, p); }
      }
    }
  }

  /** free: both mergings. */
  function Freed(b: Books, p: nat, a: nat): Books
    requires a in b.live
  {
    Below(Above(b, a), p, a)
  }

  lemma FreedOk(b: Books, p: nat, a: nat)
    requires Ok(b) && a in b.live && Neighbour(b, p, a)
    ensures Ok(Freed(b, p, a)) && Freed(b, p, a).heap == b.heap && Freed(b, p, a).live == b.live - {a}
  {
    hide Ok, Almost, Above, Below;
    AboveOk(b, p, a);
    BelowOk(Above(b, a), p, a);
    FreedSame(b, p, a);
  }

  lemma FreedSame(b: Books, p: nat, a: nat)
    requires a in b.live && Almost(Above(b, a), p, a)
    ensures Freed(b, p, a).heap == b.heap && Freed(b, p, a).live == b.live - {a} && Freed(b, p, a).base == b.base
  {
  }

  // ----- allocating and growing -----

  /** n units are cut off the end of the free block at a, or all of it is taken. */
  function Taken(b: Books, a: nat, n: nat): Books
    requires a in b.free && n <= b.free[a]
  {
    if b.free[a] == n then b.(free := b.free - {a}, live := b.live[a := n])
    else b.(free := b.free[a := b.free[a] - n], live := b.live[a + b.free[a] - n := n])
  }

  lemma TakenOk(b: Books, a: nat, n: nat)
    requires Ok(b) && a in b.free && 0 < n <= b.free[a]
    ensures Ok(Taken(b, a, n)) && a + b.free[a] - n !in b.live
  {
    hide UnitAt;
    var b', c := Taken(b, a, n), a + b.free[a] - n;
    assert BlockAt(b, a) && BlockAt(b, c) && PairAt(b, c, a);
    forall x: nat ensures BlockAt(b', x) { assert BlockAt(b, x) && PairAt(b, a, c) && PairAt(b, x, a); }
    forall x: nat, y: nat ensures PairAt(b', x, y) {
      assert PairAt(b, x, y) && PairAt(b, x, a) && PairAt(b, y, a) && PairAt(b, a, x) && PairAt(b, a, y)
             && BlockAt(b, x) && BlockAt(b, y);
    }
    forall u: nat ensures UnitAt(b', u) { assert UnitAt(b, u) && BlockAt(b, c); TakenUnit(b, a, n, u); }
  }

  lemma TakenUnit(b: Books, a: nat, n: nat, u: nat)
    requires a in b.free && 0 < n <= b.free[a] && UnitAt(b, u) && a + b.free[a] - n !in b.live
    ensures UnitAt(Taken(b, a, n), u)
  {
    var b', c := Taken(b, a, n), a + b.free[a] - n;
    if Covers(b.free, u) {
      var x: nat :| In(b.free, u, x);
      assert if x == a && u >= c then In(b'.live, u, c) else In(b'.free, u, x);
    } else if Covers(b.live, u) {
      var x: nat :| In(b.live, u, x);
      assert In(b'.live, u, x);
    } else {
      forall x: nat
        ensures !In(b'.free, u, x) && !In(b'.live, u, x)
      {
        assert !In(b.free, u, x) && !In(b.live, u, x) && !In(b.free, u, a);
      }
    }
  }

  /** The units from a on. */
  function Units(a: nat, n: nat): (us: set<nat>)
    ensures forall u :: u in us <==> a <= u < a + n
  {
    if n == 0 then {} else Units(a, n - 1) + {a + n - 1}
  }

  /** sbrk: n more units, held as one allocated block. */
  function Grown(b: Books, a: nat, n: nat): Books {
    b.(live := b.live[a := n], heap := b.heap + Units(a, n))
  }

  /** What the kernel gives is not in use yet. */
  predicate New(b: Books, a: nat, n: nat) {
    b.base < a && n > 0 && b.heap !! Units(a, n)
  }

  lemma GrownOk(b: Books, a: nat, n: nat)
    requires Ok(b) && New(b, a, n)
    ensures a !in b.live && Ok(Grown(b, a, n))
  {
    hide Units;
    var b' := Grown(b, a, n);
    forall x: nat
      ensures BlockAt(b, x) && (x in b.live ==> Apart(a, n, x, b.live[x]))
              && (x in b.free ==> Apart(a, n, x, b.free[x]))
    {
      NewApart(b, a, n, x);
    }
    forall x: nat ensures BlockAt(b', x) { assert BlockAt(b, x); }
    forall x: nat, y: nat ensures PairAt(b', x, y) { assert PairAt(b, x, y) && BlockAt(b, x) && BlockAt(b, y); }
    forall u: nat ensures UnitAt(b', u) { assert UnitAt(b, u); GrownUnit(b, a, n, u); }
  }

  /** A block already there shares no unit with what is new: if it did, its first or the new one's first unit would be
      shared. */
  lemma NewApart(b: Books, a: nat, n: nat, x: nat)
    requires Ok(b) && New(b, a, n)
    ensures BlockAt(b, x) && (x in b.live ==> Apart(a, n, x, b.live[x])) && (x in b.free ==> Apart(a, n, x, b.free[x]))
  {
    hide Units;
    var u := if x < a then a else x;
    assert BlockAt(b, x) && UnitAt(b, u);
    assert In(b.live, u, x) ==> Covers(b.live, u);
    assert In(b.free, u, x) ==> Covers(b.free, u);
    assert u in Units(a, n) <==> a <= u < a + n;
  }

  lemma GrownUnit(b: Books, a: nat, n: nat, u: nat)
    requires UnitAt(b, u) && a !in b.live
    ensures UnitAt(Grown(b, a, n), u)
  {
    var b' := Grown(b, a, n);
    if Covers(b.live, u) {
      var x: nat :| In(b.live, u, x);
      assert In(b'.live, u, x);
    } else if a <= u < a + n {
      assert In(b'.live, u, a);
    } else {
      forall x: nat ensures !In(b'.live, u, x) { assert !In(b.live, u, x); }
    }
  }

  /** Units that the allocator already counts as its own cannot be taken in again. */
  lemma GrownIff(b: Books, a: nat, n: nat)
    requires Ok(b) && b.base < a && n > 0 && a !in b.live
    ensures Ok(Grown(b, a, n)) <==> New(b, a, n)
  {
    hide Units, Ok;
    if New(b, a, n) {
      GrownOk(b, a, n);
    } else {
      var u: nat :| u in b.heap && u in Units(a, n);
      Overlap(b, a, n, u);
    }
  }

  lemma Overlap(b: Books, a: nat, n: nat, u: nat)
    requires Ok(b) && a !in b.live && u in b.heap && u in Units(a, n)
    ensures !Ok(Grown(b, a, n))
  {
    hide Units;
    var b' := Grown(b, a, n);
    assert UnitAt(b, u) && In(b'.live, u, a);
    var x: nat :| In(b.free, u, x) || In(b.live, u, x);
    assert In(b.live, u, x) ==> In(b'.live, u, x);
    if Ok(b') {
      OneBlock(b', u, a, x);
    }
  }

  // ----- which block malloc takes -----

  /** Going round the list upwards from f, block x is met before block q. */
  predicate Passed(f: nat, x: nat, q: nat) {
    if f < q then f < x < q else x > f || x < q
  }

  /** Block q is the first one met from f on that has n units. */
  ghost predicate NextFit(b: Books, f: nat, q: nat, n: nat) {
    q in b.free && b.free[q] >= n && forall x :: x in b.free && Passed(f, x, q) ==> b.free[x] < n
  }

  /** p is just below q on the list. */
  ghost predicate Before(b: Books, p: nat, q: nat) {
    (p in b.free || p == b.base) && p < q && forall x :: x in b.free ==> x <= p || q <= x
  }

  /** With the search starting at f, the n units at r were cut off the end of the first block that has them; the
      next search starts at f'. */
  ghost predicate Served(b: Books, f: nat, b': Books, f': nat, n: nat, r: nat) {
    exists q :: NextFit(b, f, q, n) && b' == Taken(b, q, n) && r + n == q + b.free[q] && Before(b, f', q)
  }

  /** The units from hp on were taken in and freed; the next search starts at p. */
  ghost predicate Enlarged(b: Books, hp: nat, n: nat, b': Books, p: nat) {
    var m := Grown(b, hp, n);
    Neighbour(m, p, hp) && b' == Freed(m, p, hp)
  }

  // ----- what sbrk gives -----

  const UINT := 4294967296
  const INT := 2147483648
  const HEADER := 16

  /** The value of an int to which x is assigned. */
  function Int32(x: nat): int {
    if x % UINT < INT then x % UINT else x % UINT - UINT
  }

  /** The units by which sbrk moves the end of memory when morecore asks for nu. */
  function Given(nu: nat): int {
    Int32(nu * HEADER) / HEADER
  }

  /** The largest request that malloc can make, in units. */
  const MOST := UINT / HEADER + 1

  /** The argument of sbrk is what morecore means exactly if it is within the range of int. */
  lemma GivenIff(nu: nat)
    requires 0 < nu <= MOST
    ensures Given(nu) <= nu && (Given(nu) == nu <==> nu * HEADER < INT)
  {
    var x := nu * HEADER;
    if x < UINT {
      assert x % UINT == x;
    } else {
      assert x % UINT == x - UINT;
    }
  }

  /** The units below the end of memory, when sbrk has moved it from hp by n. */
  function Sbrk(owned: set<nat>, hp: nat, n: int): set<nat> {
    if n >= 0 then owned + Units(hp, n) else if hp + n >= 0 then owned - Units(hp + n, -n) else owned
  }

  /** The allocator's units stay within what it was given exactly if the argument of sbrk is within the range of int. */
  lemma SoundIff(b: Books, owned: set<nat>, hp: nat, nu: nat)
    requires b.heap <= owned && owned !! Units(hp, nu) && 0 < nu <= MOST
    ensures b.heap + Units(hp, nu) <= Sbrk(owned, hp, Given(nu)) <==> nu * HEADER < INT
  {
    GivenIff(nu);
    var g := Given(nu);
    if g < nu {
      var u := if g >= 0 then hp + g else hp;
      assert u in Units(hp, nu) && u !in Sbrk(owned, hp, g);
    }
  }

  // ----- the list -----

  /** The list holds base and the free blocks, in ascending order of address. */
  ghost predicate Listed(b: Books, list: seq<nat>) {
    && |list| > 0 && list[0] == b.base
    && (forall i, j :: 0 <= i < j < |list| ==> list[i] < list[j])
    && (forall a: nat :: a in list <==> a == b.base || a in b.free)
  }

  /** The next address on the ring. */
  function Next(list: seq<nat>, i: nat): nat
    requires i < |list|
  {
    if i + 1 < |list| then list[i + 1] else list[0]
  }

  /** The block's place is after position k. */
  predicate Place(list: seq<nat>, k: nat, a: nat) {
    k < |list| && list[k] < a && (k + 1 < |list| ==> a < list[k + 1])
  }

  lemma PlaceIsNeighbour(b: Books, list: seq<nat>, k: nat, a: nat)
    requires Listed(b, list) && Place(list, k, a)
    ensures Neighbour(b, list[k], a)
  {
    assert list[k] in list;
    forall x: nat | x in b.free ensures x <= list[k] || a < x {
      assert x in list;
      var i :| 0 <= i < |list| && list[i] == x;
      assert i < k ==> list[i] < list[k];
      assert i > k + 1 ==> list[k + 1] < list[i];
    }
  }

  /** A block above that is touched is the next on the list. */
  lemma TouchIsNext(b: Books, list: seq<nat>, k: nat, a: nat)
    requires Ok(b) && Listed(b, list) && Place(list, k, a) && a in b.live
    ensures a + b.live[a] == Next(list, k) <==> a + b.live[a] in b.free
    ensures a + b.live[a] in b.free ==> k + 1 < |list|
  {
    var n := b.live[a];
    assert BlockAt(b, a);
    if k + 1 < |list| {
      assert list[k + 1] in list;
      assert list[0] < list[k + 1];
    }
    if a + n in b.free {
      assert a + n in list;
      var i :| 0 <= i < |list| && list[i] == a + n;
      InOrder(list, k, i);
      assert list[k + 1] in list;
      InOrder(list, k + 1, i);
      assert PairAt(b, a, list[k + 1]) && BlockAt(b, list[k + 1]);
    }
  }

  lemma InOrder(list: seq<nat>, i: nat, j: nat)
    requires (forall i, j :: 0 <= i < j < |list| ==> list[i] < list[j]) && i < |list| && j < |list|
    ensures list[i] < list[j] <==> i < j
  {
    if i > j { assert list[j] < list[i]; }
  }
}
