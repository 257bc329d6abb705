/**
 malloc and free of the user library: a ring of free blocks in ascending order
 of address, linked through the headers of the blocks.
 */
module Umalloc {
  import opened Options
  import opened UmallocSpec

  const MIN_CORE := 4096

  type Links = map<nat, nat>

  /** The link and the size of the block at position i. */
  predicate NodeAt(ptr: Links, size: Links, b: Books, list: seq<nat>, i: nat) {
    i < |list| ==>
      && list[i] in ptr && ptr[list[i]] == Next(list, i)
      && list[i] in size && size[list[i]] == (if i == 0 then 0 else if list[i] in b.free then b.free[list[i]] else 0)
  }

  ghost predicate Ring(ptr: Links, size: Links, b: Books, list: seq<nat>) {
    && Ok(b) && Listed(b, list)
    && (forall i: nat {:trigger NodeAt(ptr, size, b, list, i)} :: NodeAt(ptr, size, b, list, i))
    && (forall a :: a in b.live ==> a in size && size[a] == b.live[a])
  }

  /** How far it is around the ring from position j to position g. */
  function Ahead(j: nat, g: nat, n: nat): nat
    requires j < n && g < n
  {
    if g >= j then g - j else g + n - j
  }

  function After(j: nat, n: nat): nat
    requires n > 0
  {
    if j + 1 < n then j + 1 else 0
  }

  /** The position after which address a belongs. */
  function PlaceOf(list: seq<nat>, a: nat): (k: nat)
    requires |list| > 0 && list[0] < a
    ensures Place(list, k, a) || (exists i :: 0 <= i < |list| && list[i] == a)
  {
    if |list| == 1 || list[|list| - 1] < a then
      |list| - 1
    else
      var k := PlaceOf(list[..|list| - 1], a);
      k
  }

  /** The list with block a added after position k; `up` and `down` say with which neighbours it merges. */
  function ListFreed(list: seq<nat>, k: nat, a: nat, up: bool, down: bool): seq<nat>
    requires k < |list| && (up ==> k + 1 < |list|)
  {
    list[..k + 1] + (if down then [] else [a]) + list[if up then k + 2 else k + 1..]
  }

  class Heap {
    const base: nat
    var ptr: Links
    var size: Links
    var freep: Option<nat>
    ghost var b: Books
    ghost var list: seq<nat>
    ghost var owned: set<nat>     // the units that the kernel has given

    /** The allocator has no unit that the kernel has not given. */
    ghost predicate Sound()
      reads this
    {
      b.heap <= owned
    }

    /** Before the first call there is no ring; after it, freep is on it. */
    ghost predicate Valid()
      reads this
    {
      && b.base == base
      && if freep.None? then b == Books(base, map[], map[], {})
         else Ring(ptr, size, b, list) && freep.value in list
    }

    constructor (at: nat)
      ensures Valid() && Sound() && base == at && b == Books(at, map[], map[], {}) && owned == {}
    {
      base, ptr, size, freep := at, map[], map[], None;
      b, list, owned := Books(at, map[], map[], {}), [], {};
    }

    /** The search in free(): the free block, or base, below block bp. */
    method FindPlace(bp: nat) returns (p: nat, ghost k: nat)
      requires Valid() && freep.Some? && bp in b.live
      ensures k < |list| && list[k] == p && Place(list, k, bp)
    {
      hide Ring, Next, Place, Ahead, After;
      PlaceFacts(ptr, size, b, list, bp);
      k := PlaceOf(list, bp);
      p := freep.value;
      ghost var i: nat :| i < |list| && list[i] == p;
      NodeFacts(ptr, size, b, list, i);
      SearchStep(list, k, bp, i);
      while !(bp > p && bp < ptr[p])
        invariant i < |list| && list[i] == p && p in ptr && ptr[p] == Next(list, i)
        invariant Stops(list, bp, i) <==> i == k
        decreases Ahead(i, k, |list|)
      {
        if p >= ptr[p] && (bp > p || bp < ptr[p]) {
          break;
        }
        AheadNext(i, k, |list|);
        NextIs(list, i);
        p := ptr[p];
        i := After(i, |list|);
        NodeFacts(ptr, size, b, list, i);
        SearchStep(list, k, bp, i);
      }
    }

    /** free: an allocated block goes back, merged with the free blocks it touches. */
    method Free(bp: nat)
      requires Valid() && freep.Some? && bp in b.live
      modifies this
      ensures Valid() && freep.Some? && b.heap == old(b).heap && b.live == old(b).live - {bp} && owned == old(owned)
      ensures Neighbour(old(b), freep.value, bp) && b == Freed(old(b), freep.value, bp)
    {
      hide Ring, Ok, Next, Place, Freed, Listed, ListFreed;
      var p;
      ghost var k;
      p, k := FindPlace(bp);
      FreeLinks(ptr, size, b, list, k, bp);
      var next := ptr[p];
      if bp + size[bp] == next {
        size := size[bp := size[bp] + size[next]];
        ptr := ptr[bp := ptr[next]];
      } else {
        ptr := ptr[bp := next];
      }
      if p + size[p] == bp {
        size := size[p := size[p] + size[bp]];
        ptr := ptr[p := ptr[bp]];
      } else {
        ptr := ptr[p := bp];
      }
      freep := Some(p);
      b, list := Freed(b, p, bp), ListAfter(b, list, k, bp);
    }

    /** morecore: at least MIN_CORE units from the kernel, which moves the end of memory from address brk or refuses.
        The argument of sbrk is an int. */
    method Morecore(nu0: nat, brk: Option<nat>) returns (r: Option<nat>)
      requires Valid() && freep.Some? && 0 < nu0 <= MOST && (brk.Some? ==> Beyond(b, owned, brk.value, Core(nu0)))
      modifies this
      ensures Valid() && freep.Some? && r == (if brk.Some? then freep else None)
      ensures owned == if brk.Some? then Sbrk(old(owned), brk.value, Given(Core(nu0))) else old(owned)
      ensures old(Sound()) ==> (Sound() <==> brk.None? || Core(nu0) * HEADER < INT)
      ensures brk.Some? ==> Enlarged(old(b), brk.value, Core(nu0), b, freep.value)
      ensures brk.None? ==> b == old(b) && list == old(list) && freep == old(freep) && ptr == old(ptr)
                            && size == old(size)
      ensures brk.Some? ==> b.live == old(b).live && b.heap == old(b).heap + Units(brk.value, Core(nu0)) && Fits(b, nu0)
    {
      hide Ring, Ok, Freed, Grown, Units, Sbrk, Given;
      var nu := if nu0 < MIN_CORE then MIN_CORE else nu0;
      if brk.None? {
        return None;
      }
      var hp := brk.value;
      RingBooks(ptr, size, b, list);
      if Sound() { SoundIff(b, owned, hp, nu); }
      GrownRing(ptr, size, b, list, hp, nu);
      GrownIs(b, hp, nu);
      size := size[hp := nu];
      owned := Sbrk(owned, hp, Given(nu));
      b := Grown(b, hp, nu);
      ghost var m := b;
      Free(hp);
      FreedFits(m, freep.value, hp);
      return freep;
    }

    /** The first call of malloc: a ring of base alone. */
    method Start()
      requires Valid()
      modifies this
      ensures Valid() && freep.Some? && b == old(b) && owned == old(owned) && (old(freep).Some? ==> freep == old(freep))
    {
      hide Ring;
      if freep.None? {
        ptr, size := ptr[base := base], size[base := 0];
        freep := Some(base);
        list := [base];
        FirstRing(ptr, size, b, list);
      }
    }

    /** malloc, when it has found a block: n units off the block after prevp. */
    method Allocate(prevp: nat, n: nat, ghost i: nat) returns (p: nat)
      requires Valid() && freep.Some? && n > 0 && i < |list| && list[i] == prevp && prevp in ptr
               && ptr[prevp] == list[After(i, |list|)]
      requires ptr[prevp] in size && size[ptr[prevp]] >= n
      modifies this
      ensures Valid() && freep.Some? && p !in old(b).live && b.live == old(b).live[p := n] && b.heap == old(b).heap
              && Fits(old(b), n)
      ensures owned == old(owned)
      ensures var q := old(ptr)[prevp];
              && q in old(b).free && n <= old(b).free[q] && b == Taken(old(b), q, n) && p + n == q + old(b).free[q]
              && freep == Some(prevp)
    {
      hide Ring, Taken, Next, Fits;
      AllocLinks(ptr, size, b, list, i, n);
      p := ptr[prevp];
      ghost var q, j := p, After(i, |list|);
      FitsAt(b, list, j, n);
      if size[p] == n {
        ptr := ptr[prevp := ptr[p]];
        list := list[..j] + list[j + 1..];
      } else {
        size := size[p := size[p] - n];
        p := p + size[p];
        size := size[p := n];
      }
      freep := Some(prevp);
      b := Taken(b, q, n);
      assert list[i] == prevp;
    }

    /** malloc: a block off the first free block from freep on that is large enough; the header's address. */
    method Malloc(nbytes: nat, brk: Option<nat>) returns (r: Option<nat>)
      requires Valid() && nbytes < UINT && (brk.Some? ==> Beyond(b, owned, brk.value, Core(Nunits(nbytes))))
      modifies this
      ensures Valid() && freep.Some?
      ensures r.None? <==> !Fits(old(b), Nunits(nbytes)) && brk.None?
      ensures r.None? ==> b == old(b)
      ensures r.Some? ==> r.value in b.live && (b.live[r.value] - 2) * HEADER < nbytes <= (b.live[r.value] - 1) * HEADER
      ensures r.Some? && Fits(old(b), Nunits(nbytes)) ==>
                && old(freep).Some?
                && Served(old(b), old(freep).value, b, freep.value, Nunits(nbytes), r.value)
      ensures r.Some? && !Fits(old(b), Nunits(nbytes)) ==>
                exists m, p :: Enlarged(old(b), brk.value, Core(Nunits(nbytes)), m, p)
                               && Served(m, p, b, freep.value, Nunits(nbytes), r.value)
      ensures r.Some? ==> r.value !in old(b).live && b.live == old(b).live[r.value := Nunits(nbytes)]
      ensures r.Some? ==> b.heap == old(b).heap + if Fits(old(b), Nunits(nbytes))
                          then {} else Units(brk.value, Core(Nunits(nbytes)))
      ensures owned == if Fits(old(b), Nunits(nbytes)) || brk.None? then old(owned)
                       else Sbrk(old(owned), brk.value, Given(Core(Nunits(nbytes))))
      ensures old(Sound()) ==> (Sound() <==> Fits(old(b), Nunits(nbytes)) || brk.None?
                                             || Core(Nunits(nbytes)) * HEADER < INT)
    {
      hide Ring, Next, Units, Between, Fits, Listed, After, Ahead, Core, Beyond, NodeAt, Sbrk, Given, Served, Enlarged,
           Taken;
      var n := Nunits(nbytes);
      NunitsMost(nbytes);
      NunitsHold(nbytes);
      if freep.None? { NothingFits(b, n); }
      Start();
      var prevp := freep.value;
      ghost var f: nat :| f < |list| && list[f] == freep.value;
      ghost var i, grown := f, false;
      ScanStart(ptr, size, b, list, f, n);
      var p := ptr[prevp];
      while true
        invariant Valid() && freep.Some? && f < |list| && list[f] == freep.value
        invariant Scanning(ptr, size, b, list, f, n, i, prevp, p) && b.live == old(b).live
        invariant if grown then Fits(b, n) && !Fits(old(b), n) && brk.Some?
                                && b.heap == old(b).heap + Units(brk.value, Core(n)) else b == old(b)
        invariant if grown then Enlarged(old(b), brk.value, Core(n), b, freep.value)
                  else old(freep).Some? ==> freep == old(freep)
        invariant owned == if grown then Sbrk(old(owned), brk.value, Given(Core(n))) else old(owned)
        invariant old(Sound()) ==> (Sound() <==> !grown || Core(n) * HEADER < INT)
        decreases !grown, Ahead(After(i, |list|), f, |list|)
      {
        if size[p] >= n {
          ghost var m, from := b, freep.value;
          ScanFound(ptr, size, b, list, f, n, i, prevp, p);
          ghost var q := p;
          p := Allocate(prevp, n, i);
          ServedBy(m, from, q, b, prevp, n, p);
          return Some(p);
        }
        ScanNext(ptr, size, b, list, f, n, i, prevp, p);
        if p == freep.value {
          var m := Morecore(n, brk);
          if m.None? {
            return None;
          }
          p := m.value;
          grown := true;
          f :| f < |list| && list[f] == p;
          ScanStart(ptr, size, b, list, f, n);
          prevp, i := p, f;
        } else {
          prevp, i := p, After(i, |list|);
        }
        p := ptr[prevp];
      }
    }
  }

  /** Where the scan of malloc is: after prevp, at p, with no block large enough left behind. */
  ghost predicate Scanning(ptr: Links, size: Links, b: Books, list: seq<nat>, f: nat, n: nat, i: nat, prevp: nat,
                           p: nat) {
    && i < |list| && f < |list| && list[i] == prevp && After(i, |list|) < |list| && list[After(i, |list|)] == p
    && prevp in ptr && ptr[prevp] == p && p in size && p in ptr
    && Between(b, list, After(i, |list|), f, n)
  }

  lemma ScanStart(ptr: Links, size: Links, b: Books, list: seq<nat>, f: nat, n: nat)
    requires Ring(ptr, size, b, list) && f < |list|
    ensures list[f] in ptr && Scanning(ptr, size, b, list, f, n, f, list[f], ptr[list[f]])
  {
    hide Ring, Between, Ahead, After, Next;
    NodeFacts(ptr, size, b, list, f);
    NextIs(list, f);
    NodeFacts(ptr, size, b, list, After(f, |list|));
    StartBetween(b, list, f, n);
  }

  lemma ScanNext(ptr: Links, size: Links, b: Books, list: seq<nat>, f: nat, n: nat, i: nat, prevp: nat, p: nat)
    requires Ring(ptr, size, b, list) && Scanning(ptr, size, b, list, f, n, i, prevp, p) && size[p] < n
    ensures p == list[f] ==> !Fits(b, n)
    ensures p != list[f] ==> var j := After(i, |list|);
                             p in ptr && Scanning(ptr, size, b, list, f, n, j, p, ptr[p])
                               && Ahead(After(j, |list|), f, |list|) < Ahead(j, f, |list|)
  {
    hide Ring, Between, Ahead, After, Next, Fits;
    var j := After(i, |list|);
    NodeFacts(ptr, size, b, list, j);
    RingBooks(ptr, size, b, list);
    if p == list[f] {
      AtFreep(b, list, j, f, n);
      NoneFits(b, list, n);
    } else {
      AheadNext(j, f, |list|);
      OneOn(b, list, j, f, n);
      NextIs(list, j);
      NodeFacts(ptr, size, b, list, After(j, |list|));
    }
  }

  /** The scan stops at the first block that fits. */
  lemma ScanFound(ptr: Links, size: Links, b: Books, list: seq<nat>, f: nat, n: nat, i: nat, prevp: nat, p: nat)
    requires Ring(ptr, size, b, list) && Scanning(ptr, size, b, list, f, n, i, prevp, p) && 0 < n <= size[p]
    ensures NextFit(b, list[f], p, n) && Before(b, prevp, p)
  {
    hide Ring, Ok, NodeAt, Passed;
    var j := After(i, |list|);
    AllocLinks(ptr, size, b, list, i, n);
    NodeFacts(ptr, size, b, list, i);
    RingBooks(ptr, size, b, list);
    forall x | x in b.free ensures (Passed(list[f], x, p) ==> b.free[x] < n) && (x <= prevp || p <= x) {
      assert x in list;
      var g: nat :| g < |list| && list[g] == x;
      OnTheWay(list, f, g, j);
      InOrder(list, g, i);
      InOrder(list, j, g);
      assert b.free[list[g]] >= n ==> Ahead(j, g, |list|) <= Ahead(j, f, |list|);
    }
  }

  lemma OnTheWay(list: seq<nat>, f: nat, g: nat, j: nat)
    requires Sorted(list) && f < |list| && g < |list| && j < |list|
    ensures Passed(list[f], list[g], list[j]) ==> Ahead(j, g, |list|) > Ahead(j, f, |list|)
  {
    InOrder(list, f, g);
    InOrder(list, g, f);
    InOrder(list, g, j);
    InOrder(list, j, g);
    InOrder(list, f, j);
    InOrder(list, j, f);
  }

  lemma ServedBy(b: Books, f: nat, q: nat, b': Books, f': nat, n: nat, r: nat)
    requires NextFit(b, f, q, n) && b' == Taken(b, q, n) && r + n == q + b.free[q] && Before(b, f', q)
    ensures Served(b, f, b', f', n, r)
  {
  }

  lemma NothingFits(b: Books, n: nat)
    requires b.free == map[]
    ensures !Fits(b, n)
  {
  }

  /** In bytes: the units after the header hold the request, and one fewer would not. */
  lemma NunitsHold(nbytes: nat)
    ensures (Nunits(nbytes) - 2) * HEADER < nbytes <= (Nunits(nbytes) - 1) * HEADER
  {
  }

  /** The size of a request in units, header included. */
  function Nunits(nbytes: nat): (n: nat)
    ensures n > 0
  {
    (nbytes + HEADER - 1) / HEADER + 1
  }

  lemma NunitsMost(nbytes: nat)
    requires nbytes < UINT
    ensures Nunits(nbytes) <= MOST
  {
  }

  /** What the kernel gives from address a on is not in use yet. */
  predicate Beyond(b: Books, owned: set<nat>, a: nat, n: nat) {
    New(b, a, n) && owned !! Units(a, n)
  }

  /** A request for nearly 4 GB: sbrk's argument comes out as one unit, and a block of 2^28 + 1 units is handed out.
      The kernel's next address lies inside that block: taking it in breaks the books. */
  method HugeRequest(at: nat, hp: nat, n: nat) returns (h: Heap, r: Option<nat>)
    requires at < hp && n > 0
    ensures h.Valid() && !h.Sound() && r == Some(hp) && h.b.live == map[hp := MOST] && h.owned == {hp}
    ensures hp + 1 in h.b.heap && !Ok(Grown(h.b, hp + 1, n))
  {
    hide Ring;
    h := new Heap(at);
    r := h.Malloc(UINT - 1, Some(hp));
    RingBooks(h.ptr, h.size, h.b, h.list);
    HugeFacts(at, hp, n, h.b, h.owned, r.value);
  }

  lemma HugeFacts(at: nat, hp: nat, n: nat, b: Books, owned: set<nat>, r: nat)
    requires at < hp && n > 0 && Ok(b) && b.live == map[r := MOST] && b.heap == {} + Units(hp, Core(Nunits(UINT - 1)))
    requires owned == Sbrk({}, hp, Given(Core(Nunits(UINT - 1))))
    ensures Nunits(UINT - 1) == MOST && r == hp && owned == {hp} && hp + 1 in b.heap && !Ok(Grown(b, hp + 1, n))
  {
    hide Units, Ok;
    assert Nunits(UINT - 1) == MOST && Given(MOST) == 1;
    OneUnit(hp);
    WholeHeap(b, r, hp);
    assert hp + 1 in Units(hp + 1, n);
    Overlap(b, hp + 1, n, hp + 1);
  }

  lemma OneUnit(hp: nat)
    ensures Units(hp, 1) == {hp}
  {
  }

  lemma WholeHeap(b: Books, r: nat, hp: nat)
    requires Ok(b) && b.live == map[r := MOST] && b.heap == Units(hp, MOST)
    ensures r == hp
  {
    hide Units;
    assert UnitAt(b, r) && UnitAt(b, r + MOST - 1);
    assert In(b.live, r, r) && In(b.live, r + MOST - 1, r);
  }

  /** What morecore asks for: the larger of the two. */
  function Core(nu: nat): (c: nat)
    ensures c >= nu && c >= MIN_CORE && (c == nu || c == MIN_CORE)
  {
    if nu < MIN_CORE then MIN_CORE else nu
  }

  /** Some free block is large enough. */
  ghost predicate Fits(b: Books, n: nat) {
    exists x :: x in b.free && b.free[x] >= n
  }

  /** The links free() makes are those of the ring without the block and its merged neighbours. */
  lemma FreeLinks(ptr: Links, size: Links, b: Books, list: seq<nat>, k: nat, a: nat)
    requires Ring(ptr, size, b, list) && k < |list| && Place(list, k, a) && a in b.live
    ensures var p, next := list[k], Next(list, k);
            && p != a && p in ptr && ptr[p] == next && a in size && size[a] == b.live[a] && p in size
            && (a + b.live[a] == next <==> Up(b, list, k, a)) && (p + size[p] == a <==> Down(b, list, k, a))
            && (Up(b, list, k, a) ==> next in size && next in ptr && next != a && next != p && next == list[k + 1]
                                      && next in b.free && size[next] == b.free[next] && ptr[next] == Next(list, k + 1))
            && (Down(b, list, k, a) ==> size[p] == b.free[p])
            && Ring(PtrAfter(b, list, k, a, ptr), SizeAfter(b, list, k, a, size), Freed(b, p, a),
               ListAfter(b, list, k, a))
            && p in ListAfter(b, list, k, a) && Neighbour(b, p, a)
            && Freed(b, p, a).heap == b.heap && Freed(b, p, a).live == b.live - {a} && Freed(b, p, a).base == b.base
  {
    hide Ok, Freed, Ring, NodeAt, ListAfter, PtrAfter, SizeAfter, Listed;
    RingBooks(ptr, size, b, list);
    PlaceFacts(ptr, size, b, list, a);
    FreeTests(ptr, size, b, list, k, a);
    PlaceIsNeighbour(b, list, k, a);
    FreedOk(b, list[k], a);
    FreedBase(b, list[k], a);
    ListedAfter(b, list, k, a);
    RingAfter(ptr, size, b, list, k, a);
  }

  lemma FreeTests(ptr: Links, size: Links, b: Books, list: seq<nat>, k: nat, a: nat)
    requires Ring(ptr, size, b, list) && k < |list| && Place(list, k, a) && a in b.live
    ensures var p, next := list[k], Next(list, k);
            && p != a && p in ptr && ptr[p] == next && p in size
            && (a + b.live[a] == next <==> Up(b, list, k, a)) && (p + size[p] == a <==> Down(b, list, k, a))
            && (Up(b, list, k, a) ==> next in size && next in ptr && next != a && next != p && next == list[k + 1]
                                      && next in b.free && size[next] == b.free[next] && ptr[next] == Next(list, k + 1))
            && (Down(b, list, k, a) ==> size[p] == b.free[p])
  {
    hide Ring, Ok, Listed;
    RingBooks(ptr, size, b, list);
    PlaceFacts(ptr, size, b, list, a);
    NodeFacts(ptr, size, b, list, k);
    if k + 1 < |list| { NodeFacts(ptr, size, b, list, k + 1); InOrder(list, k, k + 1); }
    FreeFacts(b, list[k]);
  }

  lemma RingAfter(ptr: Links, size: Links, b: Books, list: seq<nat>, k: nat, a: nat)
    requires Ring(ptr, size, b, list) && k < |list| && Place(list, k, a) && a in b.live
    requires Ok(Freed(b, list[k], a)) && Listed(Freed(b, list[k], a), ListAfter(b, list, k, a))
             && Freed(b, list[k], a).live == b.live - {a}
    ensures Ring(PtrAfter(b, list, k, a, ptr), SizeAfter(b, list, k, a, size), Freed(b, list[k], a),
            ListAfter(b, list, k, a))
    ensures list[k] in ListAfter(b, list, k, a)
  {
    hide Ok, Listed, NodeAt, PtrAfter, Freed, ListFreed;
    var p', s', b', l := PtrAfter(b, list, k, a, ptr), SizeAfter(b, list, k, a, size), Freed(b, list[k], a),
      ListAfter(b, list, k, a);
    forall i: nat ensures NodeAt(p', s', b', l, i) { NodeAfter(ptr, size, b, list, k, a, i); }
    FreeFacts(b, list[k]);
    ListFreedAt(list, k, a, Up(b, list, k, a), Down(b, list, k, a), k);
  }

  /** The search in free() stops at position i. */
  predicate Stops(list: seq<nat>, a: nat, i: nat)
    requires i < |list|
  {
    (list[i] < a < Next(list, i)) || (list[i] >= Next(list, i) && (a > list[i] || a < Next(list, i)))
  }

  /** It stops at the block's place and nowhere else. */
  lemma SearchStep(list: seq<nat>, k: nat, a: nat, i: nat)
    requires Sorted(list) && Place(list, k, a) && i < |list| && list[0] < a
    ensures Stops(list, a, i) <==> i == k
  {
    if i < k { assert list[i] < list[k] && (i + 1 < k ==> list[i + 1] < list[k]); }
    if i > k { assert k + 1 < i ==> list[k + 1] < list[i]; }
    assert i + 1 < |list| ==> list[i] < list[i + 1];
    assert i > 0 ==> list[0] < list[i];
  }

  predicate Sorted(list: seq<nat>) {
    forall i, j :: 0 <= i < j < |list| ==> list[i] < list[j]
  }

  lemma AheadNext(i: nat, k: nat, n: nat)
    requires i < n && k < n && i != k
    ensures After(i, n) < n && Ahead(After(i, n), k, n) == Ahead(i, k, n) - 1
  {
  }

  lemma NextIs(list: seq<nat>, i: nat)
    requires i < |list|
    ensures After(i, |list|) < |list| && list[After(i, |list|)] == Next(list, i)
  {
  }

  lemma NodeFacts(ptr: Links, size: Links, b: Books, list: seq<nat>, i: nat)
    requires Ring(ptr, size, b, list) && i < |list|
    ensures NodeAt(ptr, size, b, list, i) && Sorted(list) && (i > 0 ==> list[i] in b.free && b.free[list[i]] > 0)
            && list[0] == b.base
    ensures list[i] in b.free ==> size[list[i]] == b.free[list[i]]
  {
    hide Ok;
    assert NodeAt(ptr, size, b, list, i);
    assert list[i] in list;
    FreeFacts(b, b.base);
    if i > 0 {
      assert list[0] < list[i];
      FreeFacts(b, list[i]);
    }
  }

  lemma FreeFacts(b: Books, a: nat)
    requires Ok(b)
    ensures BlockAt(b, a)
  {
  }

  lemma PlaceFacts(ptr: Links, size: Links, b: Books, list: seq<nat>, a: nat)
    requires Ring(ptr, size, b, list) && a in b.live
    ensures |list| > 0 && Sorted(list) && list[0] < a && a !in list && PlaceOf(list, a) < |list|
            && Place(list, PlaceOf(list, a), a) && a in size && size[a] == b.live[a] && b.live[a] > 0
  {
    hide Ok;
    FreeFacts(b, a);
  }

  // ----- the links after free() -----

  /** free() merges with the block above, and with the one below. */
  predicate Up(b: Books, list: seq<nat>, k: nat, a: nat)
    requires k < |list| && a in b.live
  {
    k + 1 < |list| && a + b.live[a] == list[k + 1]
  }

  predicate Down(b: Books, list: seq<nat>, k: nat, a: nat)
    requires k < |list|
  {
    list[k] in b.free && list[k] + b.free[list[k]] == a
  }

  function ListAfter(b: Books, list: seq<nat>, k: nat, a: nat): seq<nat>
    requires k < |list| && a in b.live
  {
    ListFreed(list, k, a, Up(b, list, k, a), Down(b, list, k, a))
  }

  function PtrAfter(b: Books, list: seq<nat>, k: nat, a: nat, ptr: Links): Links
    requires k < |list| && a in b.live
  {
    var above := if Up(b, list, k, a) then Next(list, k + 1) else Next(list, k);
    ptr[a := above][list[k] := if Down(b, list, k, a) then above else a]
  }

  function SizeAfter(b: Books, list: seq<nat>, k: nat, a: nat, size: Links): Links
    requires k < |list| && a in b.live
  {
    var n := b.live[a] + if Up(b, list, k, a) && list[k + 1] in b.free then b.free[list[k + 1]] else 0;
    var size' := if Up(b, list, k, a) then size[a := n] else size;
    if Down(b, list, k, a) then size'[list[k] := b.free[list[k]] + n] else size'
  }

  lemma ListFreedAt(list: seq<nat>, k: nat, a: nat, up: bool, down: bool, i: nat)
    requires k < |list| && (up ==> k + 1 < |list|)
    ensures var l := ListFreed(list, k, a, up, down);
            && |l| == |list| + (if up then -1 else 0) + (if down then 0 else 1)
            && (i <= k ==> l[i] == list[i]) && (!down ==> l[k + 1] == a)
            && (k + (if down then 0 else 1) < i < |l| ==>
                  var j := i + (if up then 1 else 0) - (if down then 0 else 1);
                    k < j < |list| && (up ==> k + 1 < j) && l[i] == list[j])
  {
  }

  lemma FreedSizes(b: Books, list: seq<nat>, k: nat, a: nat, x: nat)
    requires Ok(b) && Listed(b, list) && Place(list, k, a) && a in b.live
    ensures var b', up, down := Freed(b, list[k], a), Up(b, list, k, a), Down(b, list, k, a);
            var n := b.live[a] + (if up && list[k + 1] in b.free then b.free[list[k + 1]] else 0);
            && (up ==> list[k + 1] in b.free)
            && (x in b'.free <==> (x in b.free && !(up && x == list[k + 1])) || (!down && x == a))
            && (x in b'.free ==> b'.free[x] == if down && x == list[k]
                                 then b.free[x] + n else if x == a then n else if x in b.free then b.free[x] else 0)
  {
    TouchIsNext(b, list, k, a);
    FreeFacts(b, a);
    if k + 1 < |list| { assert list[0] < list[k + 1] && list[k + 1] in list; }
  }

  lemma ListedAfter(b: Books, list: seq<nat>, k: nat, a: nat)
    requires Ok(b) && Listed(b, list) && Place(list, k, a) && a in b.live
    ensures Listed(Freed(b, list[k], a), ListAfter(b, list, k, a))
  {
    hide Ok, Freed, ListFreed;
    var l, b', up, down := ListAfter(b, list, k, a), Freed(b, list[k], a), Up(b, list, k, a), Down(b, list, k, a);
    ListFreedAt(list, k, a, up, down, 0);
    forall i, j | 0 <= i < j < |l| ensures l[i] < l[j] {
      ListFreedAt(list, k, a, up, down, i);
      ListFreedAt(list, k, a, up, down, j);
    }
    forall x: nat ensures x in l <==> x == b'.base || x in b'.free {
      FreedSizes(b, list, k, a, x);
      FreedBase(b, list[k], a);
      InAfter(list, k, a, up, down, x);
      FreeFacts(b, a);
      assert x in list <==> x == b.base || x in b.free;
    }
    FreedBase(b, list[k], a);
  }

  lemma FreedBase(b: Books, p: nat, a: nat)
    requires a in b.live
    ensures Freed(b, p, a).base == b.base
  {
  }

  lemma InAfter(list: seq<nat>, k: nat, a: nat, up: bool, down: bool, x: nat)
    requires k < |list| && (up ==> k + 1 < |list|) && Sorted(list)
    ensures x in ListFreed(list, k, a, up, down) <==> (x in list && !(up && x == list[k + 1])) || (!down && x == a)
  {
    hide Sorted;
    var l := ListFreed(list, k, a, up, down);
    if up { assert list == list[..k + 1] + [list[k + 1]] + list[k + 2..]; OnceOnly(list, k + 1); }
      else { assert list == list[..k + 1] + list[k + 1..]; }
  }

  lemma OnceOnly(list: seq<nat>, i: nat)
    requires Sorted(list) && i < |list|
    ensures list[i] !in list[..i] && list[i] !in list[i + 1..]
  {
  }

  lemma NodeAfter(ptr: Links, size: Links, b: Books, list: seq<nat>, k: nat, a: nat, i: nat)
    requires Ring(ptr, size, b, list) && Place(list, k, a) && a in b.live
    ensures NodeAt(PtrAfter(b, list, k, a, ptr), SizeAfter(b, list, k, a, size), Freed(b, list[k], a),
            ListAfter(b, list, k, a), i)
  {
    hide Ring, Freed, ListAfter, PtrAfter, SizeAfter;
    if i < |ListAfter(b, list, k, a)| {
      LinkAfter(ptr, size, b, list, k, a, i);
      SizeAfterIs(ptr, size, b, list, k, a, i);
    }
  }

  /** The old position of the block now at position i. */
  function OldIndex(k: nat, up: bool, down: bool, i: nat): nat {
    if i <= k then i else if !down && i == k + 1
                          then k else if up && down then i + 1 else if up == down then i - 1 else i
  }

  lemma LinkAfter(ptr: Links, size: Links, b: Books, list: seq<nat>, k: nat, a: nat, i: nat)
    requires Ring(ptr, size, b, list) && Place(list, k, a) && a in b.live && i < |ListAfter(b, list, k, a)|
    ensures var p, l := PtrAfter(b, list, k, a, ptr), ListAfter(b, list, k, a); l[i] in p && p[l[i]] == Next(l, i)
  {
    hide Ok, ListFreed, Ring;
    var l, up, down := ListAfter(b, list, k, a), Up(b, list, k, a), Down(b, list, k, a);
    PlaceFacts(ptr, size, b, list, a);
    ListFreedAt(list, k, a, up, down, i);
    ListFreedAt(list, k, a, up, down, i + 1);
    ListFreedAt(list, k, a, up, down, 0);
    if i < k || i > k + (if down then 0 else 1) {
      OtherLink(ptr, size, b, list, k, a, i);
    } else {
      NodeFacts(ptr, size, b, list, k);
      if k + 1 < |list| { NodeFacts(ptr, size, b, list, k + 1); }
    }
  }

  /** Links of blocks not next to the one freed are as they were. */
  lemma OtherLink(ptr: Links, size: Links, b: Books, list: seq<nat>, k: nat, a: nat, i: nat)
    requires Ring(ptr, size, b, list) && Place(list, k, a) && a in b.live && i < |ListAfter(b, list, k, a)|
    requires i < k || i > k + (if Down(b, list, k, a) then 0 else 1)
    ensures var p, l := PtrAfter(b, list, k, a, ptr), ListAfter(b, list, k, a); l[i] in p && p[l[i]] == Next(l, i)
  {
    hide Ok, ListFreed, Ring;
    var l, up, down := ListAfter(b, list, k, a), Up(b, list, k, a), Down(b, list, k, a);
    var j := OldIndex(k, up, down, i);
    PlaceFacts(ptr, size, b, list, a);
    ListFreedAt(list, k, a, up, down, i);
    ListFreedAt(list, k, a, up, down, i + 1);
    ListFreedAt(list, k, a, up, down, 0);
    NodeFacts(ptr, size, b, list, j);
    InOrder(list, j, k);
    InOrder(list, k, j);
    assert l[i] == list[j] && list[j] in list && Next(l, i) == Next(list, j);
  }

  lemma SizeAfterIs(ptr: Links, size: Links, b: Books, list: seq<nat>, k: nat, a: nat, i: nat)
    requires Ring(ptr, size, b, list) && Place(list, k, a) && a in b.live && i < |ListAfter(b, list, k, a)|
    ensures var s, l, b' := SizeAfter(b, list, k, a, size), ListAfter(b, list, k, a), Freed(b, list[k], a);
            l[i] in s && s[l[i]] == (if i == 0 then 0 else if l[i] in b'.free then b'.free[l[i]] else 0)
  {
    hide Ok, ListFreed, Ring, Freed, Next;
    var l, up, down := ListAfter(b, list, k, a), Up(b, list, k, a), Down(b, list, k, a);
    var j := OldIndex(k, up, down, i);
    PlaceFacts(ptr, size, b, list, a);
    RingBooks(ptr, size, b, list);
    ListFreedAt(list, k, a, up, down, i);
    FreedSizes(b, list, k, a, l[i]);
    FreedSizes(b, list, k, a, b.base);
    NodeFacts(ptr, size, b, list, j);
    NodeFacts(ptr, size, b, list, k);
    InOrder(list, j, k);
    InOrder(list, k, j);
    FreeFacts(b, b.base);
    assert list[j] in list;
  }

  lemma RingBooks(ptr: Links, size: Links, b: Books, list: seq<nat>)
    requires Ring(ptr, size, b, list)
    ensures Ok(b) && Listed(b, list)
  {
  }

  // ----- malloc -----

  lemma FirstRing(ptr: Links, size: Links, b: Books, list: seq<nat>)
    requires b == Books(b.base, map[], map[], {}) && list == [b.base] && b.base in ptr && ptr[b.base] == b.base
             && b.base in size && size[b.base] == 0
    ensures Ring(ptr, size, b, list)
  {
    forall a: nat ensures BlockAt(b, a) {}
    forall a: nat, c: nat ensures PairAt(b, a, c) {}
    forall u: nat ensures UnitAt(b, u) {}
    forall i: nat ensures NodeAt(ptr, size, b, list, i) {}
  }

  lemma GrownRing(ptr: Links, size: Links, b: Books, list: seq<nat>, a: nat, n: nat)
    requires Ring(ptr, size, b, list) && New(b, a, n)
    ensures Ring(ptr, size[a := n], Grown(b, a, n), list)
  {
    hide Ok, Units;
    GrownOk(b, a, n);
    FreeFacts(Grown(b, a, n), a);
    var size', b' := size[a := n], Grown(b, a, n);
    forall i: nat
      ensures NodeAt(ptr, size', b', list, i)
    {
      assert NodeAt(ptr, size, b, list, i);
      assert i < |list| ==> list[i] in list;
    }
  }

  lemma GrownIs(b: Books, a: nat, n: nat)
    requires Ok(b) && New(b, a, n)
    ensures var m := Grown(b, a, n); a in m.live && m.live[a] == n && m.live - {a} == b.live
                                     && m.heap == b.heap + Units(a, n) && m.base == b.base
  {
    hide Units;
    GrownOk(b, a, n);
  }

  lemma FreedFits(b: Books, p: nat, a: nat)
    requires a in b.live && p < a
    ensures Fits(Freed(b, p, a), b.live[a])
  {
    var b' := Freed(b, p, a);
    assert a in b'.free || p in b'.free;
  }

  /** All blocks large enough lie from position j on, up to position f. */
  ghost predicate Between(b: Books, list: seq<nat>, j: nat, f: nat, n: nat)
    requires j < |list| && f < |list|
  {
    forall g: nat {:trigger list[g]} :: g < |list| && list[g] in b.free && b.free[list[g]] >= n ==>
                                        Ahead(j, g, |list|) <= Ahead(j, f, |list|)
  }

  lemma StartBetween(b: Books, list: seq<nat>, f: nat, n: nat)
    requires f < |list|
    ensures After(f, |list|) < |list| && Between(b, list, After(f, |list|), f, n)
  {
  }

  lemma OneOn(b: Books, list: seq<nat>, j: nat, f: nat, n: nat)
    requires j < |list| && f < |list| && j != f && Between(b, list, j, f, n)
             && !(list[j] in b.free && b.free[list[j]] >= n)
    ensures After(j, |list|) < |list| && Between(b, list, After(j, |list|), f, n)
  {
  }

  lemma AtFreep(b: Books, list: seq<nat>, j: nat, f: nat, n: nat)
    requires j < |list| && f < |list| && list[j] == list[f] && Sorted(list) && Between(b, list, j, f, n)
             && !(list[j] in b.free && b.free[list[j]] >= n)
    ensures j == f && forall g: nat {:trigger list[g]} :: g < |list| && list[g] in b.free ==> b.free[list[g]] < n
  {
    InOrder(list, j, f);
    InOrder(list, f, j);
  }

  lemma NoneFits(b: Books, list: seq<nat>, n: nat)
    requires forall g: nat {:trigger list[g]} :: g < |list| && list[g] in b.free ==> b.free[list[g]] < n
    requires Listed(b, list)
    ensures !Fits(b, n)
  {
    forall x | x in b.free ensures b.free[x] < n {
      assert x in list;
      var g: nat :| g < |list| && list[g] == x;
    }
  }

  lemma FitsAt(b: Books, list: seq<nat>, j: nat, n: nat)
    requires j < |list| && list[j] in b.free && b.free[list[j]] >= n
    ensures Fits(b, n)
  {
  }

  lemma AllocLinks(ptr: Links, size: Links, b: Books, list: seq<nat>, i: nat, n: nat)
    requires Ring(ptr, size, b, list) && i < |list| && n > 0
    requires var j := After(i, |list|); list[j] in size && size[list[j]] >= n
    ensures var j := After(i, |list|); var p := list[j];
            && j == i + 1 && p in b.free && size[p] == b.free[p] && n <= b.free[p] && p in ptr
            && (b.free[p] == n ==> Ring(ptr[list[i] := ptr[p]], size, Taken(b, p, n), list[..j] + list[j + 1..]))
            && (b.free[p] > n ==> Ring(ptr, size[p := b.free[p] - n][p + b.free[p] - n := n], Taken(b, p, n), list))
            && p + b.free[p] - n !in b.live && Taken(b, p, n).live == b.live[p + b.free[p] - n := n]
               && Taken(b, p, n).heap == b.heap && Taken(b, p, n).base == b.base
  {
    hide Ring, Ok, NodeAt, Listed;
    var j := After(i, |list|);
    NodeFacts(ptr, size, b, list, i);
    NodeFacts(ptr, size, b, list, j);
    AllocAt(ptr, size, b, list, j, n);
    RingBooks(ptr, size, b, list);
    TakenOk(b, list[j], n);
    if b.free[list[j]] == n {
      TakeExact(ptr, size, b, list, j);
    } else {
      TakeSplit(ptr, size, b, list, j, n);
    }
  }

  lemma AllocAt(ptr: Links, size: Links, b: Books, list: seq<nat>, j: nat, n: nat)
    requires j < |list| && NodeAt(ptr, size, b, list, j) && n > 0 && list[j] in size && size[list[j]] >= n
    ensures j > 0 && list[j] in b.free && size[list[j]] == b.free[list[j]] && list[j] in ptr
            && ptr[list[j]] == Next(list, j)
  {
  }

  lemma TakeExact(ptr: Links, size: Links, b: Books, list: seq<nat>, j: nat)
    requires Ring(ptr, size, b, list) && 0 < j < |list| && list[j] in b.free && Ok(Taken(b, list[j], b.free[list[j]]))
    requires NodeAt(ptr, size, b, list, j)
    ensures Ring(ptr[list[j - 1] := ptr[list[j]]], size, Taken(b, list[j], b.free[list[j]]), list[..j] + list[j + 1..])
  {
    hide Ok, NodeAt, Taken, Listed;
    var p := list[j];
    SizeIs(ptr, size, b, list, j);
    var ptr', b', l := ptr[list[j - 1] := ptr[p]], Taken(b, p, b.free[p]), list[..j] + list[j + 1..];
    TakeListed(b, list, j);
    forall i: nat ensures NodeAt(ptr', size, b', l, i) {
      var o := if i < j then i else i + 1;
      assert NodeAt(ptr, size, b, list, o);
      TakeNode(ptr, size, b, list, j, i);
    }
  }

  lemma SizeIs(ptr: Links, size: Links, b: Books, list: seq<nat>, j: nat)
    requires NodeAt(ptr, size, b, list, j) && 0 < j < |list| && list[j] in b.free
    ensures list[j] in size && size[list[j]] == b.free[list[j]] && list[j] in ptr
  {
  }

  lemma TakeListed(b: Books, list: seq<nat>, j: nat)
    requires Listed(b, list) && 0 < j < |list| && list[j] in b.free
    ensures var b' := Taken(b, list[j], b.free[list[j]]);
            Listed(b', list[..j] + list[j + 1..]) && b'.live == b.live[list[j] := b.free[list[j]]] && Sorted(list)
  {
    WithoutIs(list, j);
    assert list[0] < list[j];
  }

  lemma WithoutIs(list: seq<nat>, j: nat)
    requires Sorted(list) && j < |list|
    ensures var l := list[..j] + list[j + 1..]; Sorted(l) && forall x: nat :: x in l <==> x in list && x != list[j]
  {
    OnceOnly(list, j);
    assert list == list[..j] + [list[j]] + list[j + 1..];
  }

  lemma TakeNode(ptr: Links, size: Links, b: Books, list: seq<nat>, j: nat, i: nat)
    requires Sorted(list) && 0 < j < |list| && list[j] in b.free && NodeAt(ptr, size, b, list, j)
    requires NodeAt(ptr, size, b, list, if i < j then i else i + 1)
    ensures NodeAt(ptr[list[j - 1] := ptr[list[j]]], size, Taken(b, list[j], b.free[list[j]]),
            list[..j] + list[j + 1..], i)
  {
    var l := list[..j] + list[j + 1..];
    if i < |l| {
      var o := if i < j then i else i + 1;
      assert l[i] == list[o];
      InOrder(list, o, j);
      InOrder(list, j, o);
      InOrder(list, o, j - 1);
      InOrder(list, j - 1, o);
    }
  }

  lemma TakeSplit(ptr: Links, size: Links, b: Books, list: seq<nat>, j: nat, n: nat)
    requires Ring(ptr, size, b, list) && 0 < j < |list| && list[j] in b.free && 0 < n < b.free[list[j]]
             && Ok(Taken(b, list[j], n))
    ensures Ring(ptr, size[list[j] := b.free[list[j]] - n][list[j] + b.free[list[j]] - n := n], Taken(b, list[j], n),
            list)
  {
    hide Ok;
    var p, c := list[j], list[j] + b.free[list[j]] - n;
    var size', b' := size[p := b.free[p] - n][c := n], Taken(b, p, n);
    FreeFacts(b', c);
    FreeFacts(b, p);
    forall i: nat ensures NodeAt(ptr, size', b', list, i) {
      assert NodeAt(ptr, size, b, list, i);
      if i < |list| {
        assert list[i] in list;
        assert i < j ==> list[i] < list[j];
        assert i > j ==> list[j] < list[i];
      }
    }
  }
}
