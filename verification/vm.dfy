/**
 The physical page allocator (kalloc.c) and the operations on page tables
 (vm.c). Memory is a map from page numbers to pages; a page-table page is an
 array of entries that the methods update in place.
 */
module Vm {
  import opened Options
  import opened Sv39
  import opened VmSpec
  import opened VmEffects
  import opened VmCount

  lemma KeyFacts(s: St, k: Key)
    requires Wf(s, {}) && k in s.node
    ensures KeyAt(s, k)
  {
  }

  /** What walk sees in a slot above level 0. */
  lemma SlotFacts(s: St, k: Key, idx: nat)
    requires Wf(s, {}) && k in s.node && k.level > 0 && idx < PTES
    ensures var e := Entry(s.pages, s.node[k], idx);
            if Child(k, idx) in s.node then Valid(e) && !MapsPage(e) && Ppn(e) == s.node[Child(k, idx)]
                                            else e == 0 && !Valid(e)
  {
    assert SlotAt(s, k, idx);
    if Child(k, idx) in s.node {
      PteRoundTrip(s.node[Child(k, idx)], V);
      FlagBits(s.node[Child(k, idx)], V);
    }
  }

  /** If a table on the way is missing then so is the last one. */
  lemma Missing(s: St, r: nat, v: nat, l: nat)
    requires Wf(s, {}) && l < 2 && Key(r, l, Prefix(v, l)) !in s.node
    ensures Key(r, 0, v / PTES) !in s.node
  {
    assert KeyAt(s, Key(r, 0, Prefix(v, 0)));
    assert l == 1 ==> Parent(Key(r, 0, Prefix(v, 0))) == Key(r, 1, Prefix(v, 1));
  }

  function Range(start: nat, stop: nat): (ps: set<nat>)
    requires start <= stop
    ensures forall p :: p in ps <==> start <= p < stop
    decreases stop - start
  {
    if start == stop then {} else {start} + Range(start + 1, stop)
  }

  lemma StartWf(s: St)
    requires s.free == [] && s.node == map[] && s.leaf == map[] && s.pages.Keys == s.own.Keys
    requires forall p :: p in s.own ==> s.own[p] == Other
    ensures Wf(s, {})
  {
    forall p: nat ensures PageAt(s, p) { assert p in s.pages.Keys <==> p in s.own.Keys; }
  }

  lemma WalkingNone(s: St, r: nat, v: nat)
    ensures Walking(s, s, r, v)
  {
  }

  lemma AllocFree(s: St)
    requires s.free != []
    ensures Alloc(s).free == s.free[1..] && Alloc(s).node == s.node
  {
  }

  lemma ShortNone(s: St, r: nat, v: nat)
    requires s.free == []
    ensures Short(s, r, v, 1, 1)
  {
  }

  lemma ShortFacts(s: St, r: nat, v: nat, n: nat, m: nat)
    requires Short(s, r, v, n, m)
    ensures |s.free| < |Absent(s, r, v, n)| + m
  {
  }

  lemma SpentFacts(a: St, b: St, r: nat, v: nat, n: nat, m: nat)
    requires Spent(a, b, r, v, n, m)
    ensures |b.free| + |Absent(a, r, v, n)| + m == |a.free|
  {
  }

  /** Entering a page in a table takes no page. */
  lemma SpentSame(a: St, b: St, c: St, r: nat, v: nat, n: nat, m: nat)
    requires Spent(a, b, r, v, n, m) && c.free == b.free && c.node == b.node
    ensures Spent(a, c, r, v, n, m)
  {
  }

  /** One page for the memory, the others for the tables. */
  lemma OneTaken(a: St, m: St, b: St, r: nat, v: nat, c: nat, bytes: seq<bv8>)
    requires a.free != [] && m == Store(Alloc(a), c, bytes)
    ensures Spent(m, b, r, v, 1, 0) ==> Spent(a, b, r, v, 1, 1)
    ensures Short(m, r, v, 1, 0) ==> Short(a, r, v, 1, 1)
  {
    hide Paths;
  }

  lemma WalkEnds(a: St, b: St, r: nat, v: nat)
    requires Walking(a, b, r, v)
    ensures Key(r, 1, Prefix(v, 1)) in b.node && Key(r, 0, Prefix(v, 0)) in b.node ==> Spent(a, b, r, v, 1, 0)
    ensures LeafKey(Where(r, v)) !in b.node && b.free == [] ==> Short(a, r, v, 1, 0)
    ensures Key(r, 0, Prefix(v, 0)) == LeafKey(Where(r, v))
  {
    hide Walking, Spent, Short;
    WalkSpent(a, b, r, v);
    assert Prefix(v, 0) == v / PTES;
  }

  class Memory {
    var pages: Pages
    var free: seq<nat>
    ghost var node: map<Key, nat>
    ghost var leaf: map<Where, nat>
    ghost var own: map<nat, Owner>

    ghost function S(): St
      reads this
    {
      St(pages, free, node, leaf, own)
    }

    /** kinit: every page of physical memory is on the free list. */
    constructor (start: nat, stop: nat)
      requires start <= stop
      ensures Wf(S(), {}) && node == map[] && leaf == map[]
      ensures forall p: nat :: p in own <==> start <= p < stop
      ensures forall p: nat :: p in own ==> own[p] == Free
      ensures |free| == stop - start
    {
      pages := map p <- Range(start, stop) :: Data(Filled(0));
      own := map p <- Range(start, stop) :: Other;
      free, node, leaf := [], map[], map[];
      new;
      StartWf(S());
      var p := start;
      while p < stop
        invariant start <= p <= stop && Wf(S(), {}) && node == map[] && leaf == map[] && |free| == p - start
        invariant forall q: nat :: q in own <==> start <= q < stop
        invariant forall q: nat :: q in own ==> own[q] == if q < p then Free else Other
        modifies this`pages, this`free, this`own
      {
        Kfree(p, {});
        p := p + 1;
      }
    }

    /** kalloc */
    method Kalloc() returns (c: Option<nat>)
      requires Wf(S(), {})
      modifies this`pages, this`free, this`own
      ensures Wf(S(), {})
      ensures old(free) == [] ==> c == None && S() == old(S())
      ensures old(free) != [] ==> c == Some(old(free)[0]) && S() == Alloc(old(S()))
    {
      hide Wf;
      if free == [] {
        return None;
      }
      AllocWf(S(), {});
      var r := free[0];
      free := free[1..];
      pages := pages[r := Data(Filled(JUNK_NEW))];
      own := own[r := Other];
      assert S() == Alloc(old(S()));
      return Some(r);
    }

    /** kfree */
    method Kfree(c: nat, ghost ex: set<Slot>)
      requires Wf(S(), ex) && c in own && own[c] == Other
      modifies this`pages, this`free, this`own
      ensures S() == Release(old(S()), c) && Wf(S(), ex)
    {
      hide Wf;
      ReleaseWf(S(), ex, c);
      pages := pages[c := Data(Filled(JUNK_FREE))];
      free := [c] + free;
      own := own[c := Free];
      assert S() == Release(old(S()), c);
    }

    /** walk: the slot for virtual page v, with missing tables added if `alloc`. */
    method Walk(r: nat, v: nat, alloc: bool) returns (slot: Option<(nat, nat)>)
      requires Wf(S(), {}) && Root(r) in node && v < MAXPAGES
      modifies this`pages, this`free, this`own, this`node
      ensures Wf(S(), {}) && Grown(old(S()), S(), r)
      ensures !alloc ==> S() == old(S())
      ensures slot.Some? <==> LeafKey(Where(r, v)) in node
      ensures slot.Some? ==> slot.value == (node[LeafKey(Where(r, v))], v % PTES)
      ensures slot.None? && alloc ==> free == []
      ensures alloc ==> if slot.Some? then Spent(old(S()), S(), r, v, 1, 0) else Short(old(S()), r, v, 1, 0)
    {
      hide Wf, Grown, Link, Alloc, MapsPage, Bit, Walking, Spent, Short, Prefix;
      var pg, level := r, 2;
      ghost var k := Root(r);
      RootPrefix(v);
      GrownSame(S(), r);
      KeyFacts(S(), k);
      WalkingNone(S(), r, v);
      while level > 0
        invariant level <= 2 && Wf(S(), {}) && Grown(old(S()), S(), r) && (!alloc ==> S() == old(S()))
        invariant k == Key(r, level, Prefix(v, level)) && k in node && node[k] == pg
        invariant Walking(old(S()), S(), r, v) && forall l :: level <= l < 2 ==> Key(r, l, Prefix(v, l)) in node
      {
        var i := Px(level, v);
        KeyFacts(S(), k);
        SlotFacts(S(), k, i);
        PrefixStep(v, level);
        var e := pages[pg].ptes[i];
        assert e == Entry(pages, pg, i);
        if Valid(e) {
          pg := Ppn(e);
        } else {
          assert Child(k, i) == Key(r, level - 1, Prefix(v, level - 1)) && Child(k, i) !in node;
          if !alloc {
            Missing(S(), r, v, level - 1);
            return None;
          }
          ghost var was := S();
          var c := Kalloc();
          if c.None? {
            Missing(S(), r, v, level - 1);
            WalkEnds(old(S()), S(), r, v);
            return None;
          }
          GrownLink(was, k, i);
          pages := pages[c.value := Table(Zeroes())];
          pages := SetSlot(pages, pg, i, Pte(c.value, V));
          node, own := node[Child(k, i) := c.value], own[c.value := Node(Child(k, i))];
          AsLink(Alloc(was), S(), k, i, c.value);
          AllocFree(was);
          WalkingLink(old(S()), was, S(), r, v, level - 1, c.value);
          GrownTrans(old(S()), was, S(), r);
          pg := c.value;
        }
        k := Child(k, i);
        level := level - 1;
      }
      WalkEnds(old(S()), S(), r, v);
      return Some((pg, Px(0, v)));
    }

    /** mappages: enter pages pg, pg + 1, ... at the n virtual pages from v on. */
    method Mappages(r: nat, v: nat, n: nat, pg: nat, perm: nat, ghost mine: bool) returns (ok: bool, ghost done: nat)
      requires Wf(S(), {}) && Root(r) in node && n > 0 && v + n <= MAXPAGES && perm < FLAGS && MapsPage(perm)
      requires forall u: nat :: v <= u < v + n ==> Flat(S(), r, u) == 0
      requires if mine then forall p: nat :: pg <= p < pg + n ==> InHand(S(), p) else !Bit(perm, U)
      modifies this
      ensures Wf(S(), {}) && Mapped(old(S()), S(), r, v, pg, WithV(perm), done, mine)
      ensures if ok then done == n else done < n && free == []
      ensures if ok then Spent(old(S()), S(), r, v, n, 0) else Short(old(S()), r, v, n, 0)
    {
      hide Wf, Grown, Mapped, CanMap, InHand, MapsPage, Bit, Valid, WithV, Pte, Spent, Short;
      MappedNone(S(), r, v, pg, WithV(perm), mine);
      SpentNone(S(), r, v);
      var i := 0;
      while true
        invariant i < n && Wf(S(), {}) && Root(r) in node && Mapped(old(S()), S(), r, v, pg, WithV(perm), i, mine)
        invariant Spent(old(S()), S(), r, v, i, 0)
        decreases n - i
      {
        ghost var was := S();
        var slot := Walk(r, v + i, true);
        MappedGrown(old(S()), was, S(), r, v, pg, WithV(perm), i, mine);
        if slot.None? {
          ShortMore(old(S()), was, r, v, i, 0, 0, n, 0);
          return false, i;
        }
        SpentMore(old(S()), was, S(), r, v, i, 0, 0);
        ghost var x := Where(r, v + i);
        MapReady(old(S()), S(), r, v, pg, perm, i, n, mine);
        KeyFacts(S(), LeafKey(x));
        assert !Valid(pages[slot.value.0].ptes[slot.value.1]);     // panic: remap
        ghost var now := S();
        var e := Pte(pg + i, WithV(perm));
        pages := SetSlot(pages, slot.value.0, slot.value.1, e);
        if mine {
          leaf, own := leaf[x := pg + i], own[pg + i := User(x)];
        }
        PteRoundTrip(pg + i, WithV(perm));
        assert S() == Map(now, x, e, mine);
        MappedStep(old(S()), now, r, v, pg, WithV(perm), i, mine);
        SpentSame(old(S()), now, S(), r, v, i + 1, 0);
        i := i + 1;
        if i == n {
          return true, n;
        }
        RootKept(old(S()), S(), r, v, pg, WithV(perm), i, mine);
      }
    }

    /** uvmcreate: an address space in which nothing is mapped. */
    method Uvmcreate() returns (r: Option<nat>)
      requires Wf(S(), {})
      modifies this`pages, this`free, this`own, this`node
      ensures Wf(S(), {}) && SameFlat(old(S()), S()) && leaf == old(leaf)
      ensures if r.None? then old(free) == [] && S() == old(S())
              else Root(r.value) in node && node == old(node)[Root(r.value) := r.value] && Root(r.value) !in old(node)
      ensures r.Some? ==> forall v: nat :: Flat(S(), r.value, v) == 0
    {
      hide Wf, Flat;
      var c := Kalloc();
      if c.None? {
        return None;
      }
      AllocWf(old(S()), {});
      NewRootWf(S(), c.value);
      ghost var was := S();
      pages := pages[c.value := Table(Zeroes())];
      node, own := node[Root(c.value) := c.value], own[c.value := Node(Root(c.value))];
      assert S() == NewRoot(was, c.value);
      return c;
    }

    /** uvmunmap: remove the mappings of n virtual pages, which must exist. */
    method Uvmunmap(r: nat, v: nat, n: nat, doFree: bool)
      requires Wf(S(), {}) && Root(r) in node && v + n <= MAXPAGES
      requires forall u: nat :: v <= u < v + n ==> Valid(Flat(S(), r, u)) && (doFree ==> Where(r, u) in leaf)
      modifies this
      ensures Wf(S(), {}) && Unmapped(old(S()), S(), r, v, v + n, doFree)
    {
      hide Wf, Unmapped, Grown, RemoveOne, MapsPage, Ppn, Flags, Valid, LeafOk;
      var i := 0;
      UnmappedNone(S(), r, v, doFree);
      while i < n
        invariant i <= n && Wf(S(), {}) && node == old(node) && Unmapped(old(S()), S(), r, v, v + i, doFree)
      {
        ghost var x, was := Where(r, v + i), S();
        RemoveReady(old(S()), S(), r, v, i, n, doFree);
        var slot := Walk(r, v + i, false);
        assert slot.Some?;                                  // panic: walk
        KeyFacts(S(), LeafKey(x));
        var e := pages[slot.value.0].ptes[slot.value.1];
        assert e == Flat(was, r, v + i) && Valid(e);        // panic: not mapped
        assert Flags(e) != V;                               // panic: not a leaf
        leaf, own := Disown(was, x).leaf, Disown(was, x).own;
        if doFree {
          Kfree(Ppn(e), {LeafSlot(x)});
        }
        pages := SetSlot(pages, slot.value.0, slot.value.1, 0);
        AsRemoveOne(was, S(), x, doFree, Ppn(e));
        UnmappedMore(old(S()), was, S(), r, v, v + i, doFree);
        i := i + 1;
      }
    }

    /** uvmdealloc: shrink user memory to newsz bytes. */
    method Uvmdealloc(r: nat, oldsz: nat, newsz: nat) returns (sz: nat)
      requires Wf(S(), {}) && Root(r) in node && PagesFor(oldsz) <= MAXPAGES
      requires forall u: nat :: PagesFor(newsz) <= u < PagesFor(oldsz) ==> Where(r, u) in leaf
      modifies this
      ensures Wf(S(), {})
      ensures if newsz < oldsz then sz == newsz && Unmapped(old(S()), S(), r, PagesFor(newsz), PagesFor(oldsz), true)
              else sz == oldsz && S() == old(S())
    {
      hide Wf, Unmapped, Valid;
      if newsz >= oldsz {
        return oldsz;
      }
      assert PagesFor(newsz) <= PagesFor(oldsz);
      UnmappedNone(S(), r, PagesFor(newsz), true);
      if PagesFor(newsz) < PagesFor(oldsz) {
        forall u: nat | PagesFor(newsz) <= u < PagesFor(oldsz) ensures Valid(Flat(S(), r, u)) {
          MappedUser(S(), r, u);
        }
        Uvmunmap(r, PagesFor(newsz), PagesFor(oldsz) - PagesFor(newsz), true);
      }
      return newsz;
    }

    /** Give virtual page v memory of its own with the given contents, as uvmalloc and uvmcopy do for each page. */
    method AddPage(r: nat, v: nat, bytes: seq<bv8>, perm: nat) returns (ok: bool)
      requires Wf(S(), {}) && Root(r) in node && v < MAXPAGES && Flat(S(), r, v) == 0
      requires perm < FLAGS && MapsPage(perm) && |bytes| == PGSIZE
      modifies this
      ensures Wf(S(), {})
      ensures if ok then Populated(old(S()), S(), r, v, [WithV(perm)], [bytes]) else Grown(old(S()), S(), r)
      ensures if ok then Spent(old(S()), S(), r, v, 1, 1) else Short(old(S()), r, v, 1, 1)
    {
      hide Wf, Grown, Populated, Mapped, MapsPage, WithV, Flat, SameFlat, Alloc, Spent, Short;
      var c := Kalloc();
      if c.None? {
        GrownSame(S(), r);
        ShortNone(S(), r, v);
        return false;
      }
      ghost var was := S();
      AllocWf(old(S()), {});
      AllocFacts(old(S()));
      StoreWf(S(), c.value, bytes);
      pages := pages[c.value := Data(bytes)];
      assert S() == Store(was, c.value, bytes);
      ghost var m := S();
      OneFlat(old(S()), was, m, r, v);
      ghost var done;
      ok, done := Mappages(r, v, 1, c.value, perm, true);
      OneTaken(old(S()), m, S(), r, v, c.value, bytes);
      if ok {
        PopulatedOne(old(S()), m, S(), r, v, WithV(perm), bytes);
      } else {
        FailedOne(old(S()), m, S(), r, v, WithV(perm), bytes);
        Kfree(c.value, {});
      }
    }

    /** uvmalloc: grow user memory to newsz bytes. */
    method Uvmalloc(r: nat, oldsz: nat, newsz: nat, xperm: nat) returns (sz: nat)
      requires Wf(S(), {}) && Root(r) in node && PagesFor(newsz) <= MAXPAGES && xperm in {0, W, X, W + X}
      requires forall u: nat :: PagesFor(oldsz) <= u < PagesFor(newsz) ==> Flat(S(), r, u) == 0
      modifies this
      ensures Wf(S(), {})
      ensures newsz < oldsz ==> sz == oldsz && S() == old(S())
      ensures oldsz <= newsz ==>
                var lo, n := PagesFor(oldsz), NewPages(oldsz, newsz);
                if |old(free)| >= n + |Absent(old(S()), r, lo, n)| then
                  && sz == newsz && |free| == |old(free)| - n - |Absent(old(S()), r, lo, n)|
                  && Populated(old(S()), S(), r, lo, Repeat(n, V + R + U + xperm), Repeat(n, Filled(0)))
                else sz == 0 && Grown(old(S()), S(), r)
    {
      hide Wf, Grown, Populated, Unmapped, Flat, MapsPage, WithV, Filled, Repeat, Absent, Spent, Short;
      if newsz < oldsz {
        return oldsz;
      }
      var lo, perm := PagesFor(oldsz), R + U + xperm;
      ghost var flags := V + perm;
      AllocPerm(xperm);
      var k := lo;
      ghost var n := 0;
      PopulatedNone(S(), r, lo);
      RepeatNone(flags, Filled(0));
      SpentNone(S(), r, lo);
      while k * PGSIZE < newsz
        invariant k == lo + n && n <= NewPages(oldsz, newsz) && Wf(S(), {}) && Root(r) in node
        invariant Populated(old(S()), S(), r, lo, Repeat(n, flags), Repeat(n, Filled(0)))
        invariant Spent(old(S()), S(), r, lo, n, n)
        decreases newsz - k * PGSIZE
      {
        ghost var was := S();
        BelowSize(k, newsz);
        StillEmpty(old(S()), S(), r, lo, Repeat(n, flags), Repeat(n, Filled(0)), k);
        var ok := AddPage(r, k, Filled(0), perm);
        if !ok {
          ghost var grown := S();
          ShortMore(old(S()), was, r, lo, n, n, 1, NewPages(oldsz, newsz), NewPages(oldsz, newsz));
          ShortFacts(old(S()), r, lo, NewPages(oldsz, newsz), NewPages(oldsz, newsz));
          GrownLeaves(old(S()), was, grown, r, lo, Repeat(n, flags), Repeat(n, Filled(0)));
          Rounded(k);
          Rounded(lo);
          UnmappedNone(S(), r, lo, true);
          var back := Uvmdealloc(r, k * PGSIZE, lo * PGSIZE);
          RolledBack(old(S()), was, grown, S(), r, lo, Repeat(n, flags), Repeat(n, Filled(0)));
          return 0;
        }
        SpentMore(old(S()), was, S(), r, lo, n, n, 1);
        PopulatedRoot(was, S(), r, k, [flags], [Filled(0)]);
        PopulatedMore(old(S()), was, S(), r, lo, Repeat(n, flags), Repeat(n, Filled(0)), flags, Filled(0));
        RepeatMore(n, flags);
        RepeatMore(n, Filled(0));
        k, n := k + 1, n + 1;
      }
      AllPages(k, oldsz, newsz);
      SpentFacts(old(S()), S(), r, lo, n, n);
      return newsz;
    }

    /** uvmcopy: give the address space `to` a copy of the first sz bytes of the address space `from`. */
    method Uvmcopy(from: nat, to: nat, sz: nat) returns (ok: bool)
      requires Wf(S(), {}) && Root(from) in node && Root(to) in node && PagesFor(sz) <= MAXPAGES
      requires forall u: nat :: u < PagesFor(sz) ==> Where(from, u) in leaf && Flat(S(), to, u) == 0
      modifies this
      ensures Wf(S(), {})
      ensures ok <==> |old(free)| >= PagesFor(sz) + |Absent(old(S()), to, 0, PagesFor(sz))|
      ensures if ok then Populated(old(S()), S(), to, 0, FlagsOf(old(S()), from, PagesFor(sz)),
                         BytesOf(old(S()), from, PagesFor(sz)))
              else Grown(old(S()), S(), to)
    {
      hide Absent, Spent, Short, Wf, Grown, Populated, Unmapped, Flat, MapsPage, WithV, Filled, FlagsOf, BytesOf, Valid,
           Flags, Ppn, Bytes;
      var i := 0;
      ghost var s0 := S();
      PopulatedNone(S(), to, 0);
      NoneOf(S(), from);
      SpentNone(S(), to, 0);
      while i * PGSIZE < sz
        invariant i <= PagesFor(sz) && Wf(S(), {}) && Root(from) in node && Root(to) in node
        invariant Populated(s0, S(), to, 0, FlagsOf(s0, from, i), BytesOf(s0, from, i)) && Spent(s0, S(), to, 0, i, i)
        decreases sz - i * PGSIZE
      {
        ghost var was := S();
        BelowSize(i, sz);
        CopyReady(s0, S(), from, to, i);
        var slot := Walk(from, i, false);
        assert slot.Some?;                                     // panic: pte should exist
        KeyFacts(S(), LeafKey(Where(from, i)));
        var e := pages[slot.value.0].ptes[slot.value.1];
        assert e == Flat(was, from, i) && Valid(e) by { FlatEntry(was, from, i); }    // panic: page not present
        StillEmpty(s0, S(), to, 0, FlagsOf(s0, from, i), BytesOf(s0, from, i), i);
        var ok := AddPage(to, i, pages[Ppn(e)].bytes, Flags(e));
        if !ok {
          ghost var grown := S();
          ShortMore(s0, was, to, 0, i, i, 1, PagesFor(sz), PagesFor(sz));
          ShortFacts(s0, to, 0, PagesFor(sz), PagesFor(sz));
          GrownLeaves(s0, was, grown, to, 0, FlagsOf(s0, from, i), BytesOf(s0, from, i));
          forall u: nat | u < i ensures Valid(Flat(S(), to, u)) { MappedUser(S(), to, u); }
          Uvmunmap(to, 0, i, true);
          RolledBack(s0, was, grown, S(), to, 0, FlagsOf(s0, from, i), BytesOf(s0, from, i));
          return false;
        }
        SpentMore(s0, was, S(), to, 0, i, i, 1);
        PopulatedRoot2(was, S(), from, to, i, [Flags(e)], [Bytes(s0, Where(from, i))]);
        PopulatedMore(s0, was, S(), to, 0, FlagsOf(s0, from, i), BytesOf(s0, from, i), Flags(e),
          Bytes(s0, Where(from, i)));
        MoreOf(s0, from, i);
        i := i + 1;
      }
      AllPages(i, 0, sz);
      SpentFacts(s0, S(), to, 0, i, i);
      return true;
    }

    /** freewalk: free the table in page pg and all tables below it. */
    method Freewalk(pg: nat, ghost k: Key)
      requires Wf(S(), {}) && k in node && node[k] == pg
      requires forall v: nat :: Flat(S(), k.root, v) == 0
      modifies this
      ensures Wf(S(), {ParentSlot(k)}) && Freed(old(S()), S(), k)
      decreases k.level
    {
      hide Wf, Freed, Pruned, Flat, MapsPage, Valid, Ppn, Drop, Filled;
      PrunedNone(S(), k);
      var i := 0;
      while i < PTES
        invariant i <= PTES && Wf(S(), {}) && k in node && node[k] == pg && Pruned(old(S()), S(), k.root, k.level, k)
        invariant forall i' :: 0 <= i' < i ==> Entry(pages, pg, i') == 0
      {
        ghost var was := S();
        KeyFacts(S(), k);
        var pte := pages[pg].ptes[i];
        assert pte == Entry(pages, pg, i);
        if k.level > 0 { SlotFacts(S(), k, i); } else { EmptyEntry(old(S()), S(), k, i); }
        if Valid(pte) && !MapsPage(pte) {
          StillUnmapped(old(S()), S(), k);
          Freewalk(Ppn(pte), Child(k, i));
          PrunedStep(old(S()), was, S(), k, i);
          ghost var now := S();
          pages := SetSlot(pages, pg, i, 0);
          assert S() == Clear(now, k, i);
        } else {
          assert !Valid(pte);                                // panic: leaf
        }
        i := i + 1;
      }
      ghost var was := S();
      PrunedDrop(old(S()), was, k);
      DropFacts(was, k);
      node, own := node - {k}, own[pg := Other];
      assert S() == Drop(was, k);
      Kfree(pg, {ParentSlot(k)});
    }

    /** uvmfree: free user memory and then the page-table pages. */
    method Uvmfree(r: nat, sz: nat)
      requires Wf(S(), {}) && Root(r) in node && PagesFor(sz) <= MAXPAGES
      requires forall u: nat :: if u < PagesFor(sz) then Where(r, u) in leaf else Flat(S(), r, u) == 0
      modifies this
      ensures Wf(S(), {}) && Gone(old(S()), S(), r)
    {
      hide Wf, Unmapped, Freed, Gone, Flat, Valid;
      UnmappedNone(S(), r, 0, true);
      if sz > 0 {
        forall u: nat | u < PagesFor(sz) ensures Valid(Flat(S(), r, u)) { MappedUser(S(), r, u); }
        Uvmunmap(r, 0, PagesFor(sz), true);
      }
      ghost var was := S();
      RootFacts(old(S()), was, r, PagesFor(sz));
      Freewalk(r, Root(r));
      RootSlot(S(), Root(r));
      AllGone(old(S()), was, S(), r, PagesFor(sz));
    }

    /** walkaddr: the page that user code reaches at virtual page v. */
    method Walkaddr(r: nat, v: nat) returns (pg: Option<nat>)
      requires Wf(S(), {}) && Root(r) in node
      modifies this`pages, this`free, this`own, this`node
      ensures S() == old(S())
      ensures pg == if Readable(S(), r, v) then Some(leaf[Where(r, v)]) else None
    {
      hide Wf, Flat, Grown, Bit, MapsPage;
      if v >= MAXPAGES {
        return None;
      }
      var slot := Walk(r, v, false);
      if slot.None? {
        NoEntry(S(), r, v);
        return None;
      }
      FlatEntry(S(), r, v);
      var pte := pages[slot.value.0].ptes[slot.value.1];
      if !Valid(pte) || !Bit(pte, U) {
        return None;
      }
      ReadableFacts(S(), r, v);
      return Some(Ppn(pte));
    }

    /** copyin: the len bytes of user memory at virtual address va. */
    method Copyin(r: nat, va: nat, len: nat) returns (dst: Option<seq<bv8>>)
      requires Wf(S(), {}) && Root(r) in node
      modifies this`pages, this`free, this`own, this`node
      ensures S() == old(S())
      ensures dst.Some? <==> forall a: nat :: va <= a < va + len ==> Readable(S(), r, a / PGSIZE)
      ensures dst.Some? ==> |dst.value| == len && forall i :: 0 <= i < len ==>
                                                              ByteAt(S(), r, va + i) == Some(dst.value[i])
      ensures dst == Copied(S(), r, va, len)
    {
      hide Wf, Readable, Flat, ByteAt;
      var got: seq<bv8> := [];
      while |got| < len
        invariant |got| <= len && S() == old(S())
        invariant forall a: nat :: va <= a < va + |got| ==> Readable(S(), r, a / PGSIZE)
        invariant forall i :: 0 <= i < |got| ==> ByteAt(S(), r, va + i) == Some(got[i])
        decreases len - |got|
      {
        var src := va + |got|;
        var v := src / PGSIZE;
        var pg := Walkaddr(r, v);
        if pg.None? {
          assert !Readable(S(), r, src / PGSIZE);
          return None;
        }
        ByteFacts(S(), r, src);
        var o := src % PGSIZE;
        var n := if PGSIZE - o > len - |got| then len - |got| else PGSIZE - o;
        var chunk := pages[pg.value].bytes[o..o + n];
        forall a: nat | src <= a < src + n
          ensures Readable(S(), r, a / PGSIZE) && ByteAt(S(), r, a) == Some(chunk[a - src])
        {
          SamePage(src, a, n);
          ByteFacts(S(), r, a);
        }
        forall i | 0 <= i < |got| + n ensures ByteAt(S(), r, va + i) == Some((got + chunk)[i]) {
          if i >= |got| { assert ByteAt(S(), r, src + (i - |got|)) == Some(chunk[i - |got|]); }
        }
        got := got + chunk;
      }
      AsCopied(S(), r, va, got);
      return Some(got);
    }

    /** copyout: write src to user memory at virtual address va; on failure the bytes before the first
        page that may not be written have been. */
    method Copyout(r: nat, va: nat, src: seq<bv8>) returns (ok: bool, ghost done: nat)
      requires Wf(S(), {}) && Root(r) in node
      modifies this`pages, this`free, this`own, this`node
      ensures Wf(S(), {}) && done <= |src| && Written(old(S()), S(), r, va, src[..done])
      ensures forall a: nat :: va <= a < va + done ==> Writable(S(), r, a / PGSIZE)
      ensures if ok then done == |src| else done < |src| && !Writable(S(), r, (va + done) / PGSIZE)
    {
      hide Wf, Readable, Writable, Flat, ByteAt, Written, Grown, Bit, MapsPage;
      var sent := 0;
      WrittenNone(S(), r, va);
      assert src[..0] == [];
      while sent < |src|
        invariant sent <= |src| && Wf(S(), {}) && Written(old(S()), S(), r, va, src[..sent]) && Root(r) in node
        invariant forall a: nat :: va <= a < va + sent ==> Writable(S(), r, a / PGSIZE)
        decreases |src| - sent
      {
        ghost var was := S();
        var dst := va + sent;
        var v := dst / PGSIZE;
        WritableFacts(S(), r, v);
        if v >= MAXPAGES {
          return false, sent;
        }
        var slot := Walk(r, v, false);
        if slot.None? {
          return false, sent;
        }
        FlatEntry(S(), r, v);
        var pte := pages[slot.value.0].ptes[slot.value.1];
        if !Valid(pte) || !Bit(pte, U) || !Bit(pte, W) {
          return false, sent;
        }
        var o := dst % PGSIZE;
        var n := if PGSIZE - o > |src| - sent then |src| - sent else PGSIZE - o;
        var page := pages[Ppn(pte)].bytes;
        var bytes := page[..o] + src[sent..sent + n] + page[o + n..];
        StoreWf(S(), Ppn(pte), bytes);
        pages := pages[Ppn(pte) := Data(bytes)];
        assert S() == Store(was, Ppn(pte), bytes);
        WrittenMore(old(S()), was, r, va, src, sent, n);
        forall a: nat | va <= a < va + sent + n ensures Writable(S(), r, a / PGSIZE) {
          if a >= dst { SamePage(dst, a, n); }
          StillWritable(was, S(), r, a / PGSIZE);
        }
        sent := sent + n;
      }
      return true, sent;
    }
  }

  predicate Writable(s: St, r: nat, v: nat) {
    Readable(s, r, v) && Bit(Flat(s, r, v), W)
  }

  /** Of all user memory of all address spaces, just the bytes at va of the address space r have changed. */
  ghost predicate Written(s: St, s': St, r: nat, va: nat, data: seq<bv8>) {
    && s'.node == s.node && s'.leaf == s.leaf && s'.own == s.own && s'.free == s.free && SameFlat(s, s')
    && (forall r', a: nat :: ByteAt(s', r', a) == if r' == r && va <= a < va + |data|
                             then Some(data[a - va]) else ByteAt(s, r', a))
  }

  /** User code may read virtual page v. */
  predicate Readable(s: St, r: nat, v: nat) {
    v < MAXPAGES && Valid(Flat(s, r, v)) && Bit(Flat(s, r, v), U) && Where(r, v) in s.leaf
  }

  /** What copyin returns. */
  ghost function Copied(s: St, r: nat, va: nat, len: nat): Option<seq<bv8>> {
    if forall a: nat :: va <= a < va + len ==> Readable(s, r, a / PGSIZE) then
      Some(seq(len, i requires 0 <= i => var b := ByteAt(s, r, va + i); if b.Some? then b.value else 0))
    else None
  }

  /** The byte of user memory at virtual address a. */
  function ByteAt(s: St, r: nat, a: nat): Option<bv8> {
    var b := Bytes(s, Where(r, a / PGSIZE));
    if a % PGSIZE < |b| then Some(b[a % PGSIZE]) else None
  }

  /** A page in the caller's hands that can become user memory. */
  ghost predicate InHand(s: St, p: nat) {
    p in s.own && s.own[p] == Other && p in s.pages && s.pages[p].Data? && |s.pages[p].bytes| == PGSIZE
  }

  lemma AsLink(m: St, s: St, k: Key, idx: nat, c: nat)
    requires k in m.node && k.level > 0 && KeyAt(m, k) && idx < PTES
    requires s.pages == SetSlot(m.pages[c := Table(Zeroes())], m.node[k], idx, Pte(c, V))
    requires s.free == m.free && s.leaf == m.leaf && s.node == m.node[Child(k, idx) := c]
             && s.own == m.own[c := Node(Child(k, idx))]
    ensures s == Link(m, k, idx, c)
  {
  }

  lemma MapReady(a: St, b: St, r: nat, v: nat, pg: nat, perm: nat, i: nat, n: nat, mine: bool)
    requires Wf(b, {}) && i < n && perm < FLAGS && MapsPage(perm) && LeafKey(Where(r, v + i)) in b.node
    requires Mapped(a, b, r, v, pg, WithV(perm), i, mine)
    requires forall u: nat :: v <= u < v + n ==> Flat(a, r, u) == 0
    requires if mine then forall p: nat :: pg <= p < pg + n ==> InHand(a, p) else !Bit(perm, U)
    ensures CanMap(b, Where(r, v + i), Pte(pg + i, WithV(perm)), mine)
    ensures mine ==> pg + i in a.own && a.own[pg + i] == Other && pg + i in a.pages
    ensures !Valid(Entry(b.pages, b.node[LeafKey(Where(r, v + i))], (v + i) % PTES))
  {
    hide Bit, MapsPage, Wf;
    WithVBits(perm);
    PteRoundTrip(pg + i, WithV(perm));
    FlagBits(pg + i, WithV(perm));
    assert Flat(b, r, v + i) == Flat(a, r, v + i);
    if mine {
      assert InHand(a, pg + i);
      assert PageMapped(a, b, r, v, pg, i, mine, pg + i);
    }
  }

  lemma RootKept(a: St, b: St, r: nat, v: nat, pg: nat, flags: nat, i: nat, mine: bool)
    requires flags < FLAGS && Mapped(a, b, r, v, pg, flags, i, mine) && Root(r) in a.node
    ensures Root(r) in b.node
  {
  }

  lemma MappedUser(s: St, r: nat, u: nat)
    requires Wf(s, {}) && Where(r, u) in s.leaf
    ensures Valid(Flat(s, r, u)) && Ppn(Flat(s, r, u)) == s.leaf[Where(r, u)]
  {
    FlatOk(s, r, u);
  }

  lemma RemoveReady(a: St, b: St, r: nat, v: nat, i: nat, n: nat, freed: bool)
    requires Wf(b, {}) && i < n && Unmapped(a, b, r, v, v + i, freed)
    requires forall u: nat :: v <= u < v + n ==> Valid(Flat(a, r, u)) && (freed ==> Where(r, u) in a.leaf)
    ensures var x, e := Where(r, v + i), Flat(b, r, v + i);
            && LeafKey(x) in b.node && Valid(e) && Flags(e) != V
            && (freed ==> x in b.leaf && Ppn(e) == b.leaf[x] && b.leaf[x] in b.own)
            && Wf(Disown(b, x), {LeafSlot(x)}) && Wf(RemoveOne(b, x, freed), {})
               && Unmapped(b, RemoveOne(b, x, freed), r, v + i, v + i + 1, freed)
  {
    hide Wf, Bit;
    var x, e := Where(r, v + i), Flat(b, r, v + i);
    assert e == Flat(a, r, v + i);
    FlatOk(b, r, v + i);
    ZeroInvalid();
    NotTable(e);
    UserFacts(b, x);
    DisownWf(b, x);
    RemoveOneWf(b, x, freed);
  }

  lemma UserFacts(s: St, x: Where)
    requires Wf(s, {})
    ensures UserAt(s, x)
  {
  }

  /** An entry that maps a page has more flags than V. */
  lemma NotTable(e: nat)
    requires MapsPage(e)
    ensures Flags(e) != V
  {
    PteDecode(e);
  }

  lemma AsRemoveOne(s: St, s': St, x: Where, freed: bool, c: nat)
    requires LeafKey(x) in s.node && (freed ==> x in s.leaf && s.leaf[x] == c)
    requires var d := Disown(s, x); var m := if freed then Release(d, c) else d;
             s' == m.(pages := SetSlot(m.pages, s.node[LeafKey(x)], x.vpn % PTES, 0))
    ensures s' == RemoveOne(s, x, freed)
  {
  }

  lemma AllocFacts(s: St)
    requires s.free != []
    ensures var c := s.free[0]; var m := Alloc(s);
            c in m.own && m.own[c] == Other && c in m.pages && m.node == s.node && m.leaf == s.leaf
  {
  }

  lemma OneFlat(a: St, b: St, c: St, r: nat, v: nat)
    requires SameFlat(a, b) && SameFlat(b, c) && Flat(a, r, v) == 0
    ensures Flat(c, r, v) == 0
  {
    hide Flat;
    assert Flat(c, r, v) == Flat(b, r, v);
  }

  /** The number of pages uvmalloc adds. */
  function NewPages(oldsz: nat, newsz: nat): nat
    requires oldsz <= newsz
  {
    PagesFor(newsz) - PagesFor(oldsz)
  }

  lemma AllocPerm(xperm: nat)
    requires xperm in {0, W, X, W + X}
    ensures var perm := R + U + xperm; perm < FLAGS - 1 && MapsPage(perm) && WithV(perm) == V + perm
  {
  }

  lemma RepeatNone<T, T'>(t: T, t': T')
    ensures Repeat(0, t) == [] && Repeat(0, t') == []
  {
  }

  lemma RepeatMore<T>(n: nat, t: T)
    ensures Repeat(n, t) + [t] == Repeat(n + 1, t)
  {
  }

  lemma BelowSize(k: nat, sz: nat)
    requires k * PGSIZE < sz
    ensures k < PagesFor(sz)
  {
  }

  lemma AllPages(k: nat, oldsz: nat, newsz: nat)
    requires oldsz <= newsz <= k * PGSIZE && k <= PagesFor(newsz)
    ensures k == PagesFor(newsz)
  {
  }

  lemma Rounded(k: nat)
    ensures PagesFor(k * PGSIZE) == k
  {
  }

  lemma StillEmpty(a: St, b: St, r: nat, lo: nat, flags: seq<nat>, data: seq<seq<bv8>>, k: nat)
    requires |flags| == |data| && forall i :: 0 <= i < |flags| ==> flags[i] < FLAGS
    requires Populated(a, b, r, lo, flags, data) && k == lo + |flags| && Flat(a, r, k) == 0
    ensures Flat(b, r, k) == 0
  {
  }

  lemma PopulatedRoot(a: St, b: St, r: nat, lo: nat, flags: seq<nat>, data: seq<seq<bv8>>)
    requires |flags| == |data| && forall i :: 0 <= i < |flags| ==> flags[i] < FLAGS
    requires Populated(a, b, r, lo, flags, data) && Root(r) in a.node
    ensures Root(r) in b.node
  {
  }

  lemma GrownLeaves(a: St, b: St, c: St, r: nat, lo: nat, flags: seq<nat>, data: seq<seq<bv8>>)
    requires |flags| == |data| && forall i :: 0 <= i < |flags| ==> flags[i] < FLAGS
    requires Populated(a, b, r, lo, flags, data) && Grown(b, c, r) && Root(r) in b.node
    ensures Root(r) in c.node && forall u: nat :: lo <= u < lo + |flags| ==> Where(r, u) in c.leaf
  {
    hide Flat;
    forall u: nat | lo <= u < lo + |flags| ensures Where(r, u) in c.leaf {
      assert Fresh(a, b, Where(r, lo + (u - lo)), flags[u - lo], data[u - lo]);
    }
  }

  lemma NoneOf(s: St, r: nat)
    ensures FlagsOf(s, r, 0) == [] && BytesOf(s, r, 0) == []
  {
  }

  lemma FlatEntry(s: St, r: nat, v: nat)
    requires Wf(s, {}) && Key(r, 0, v / PTES) in s.node
    ensures var pg := s.node[Key(r, 0, v / PTES)];
            pg in s.pages && s.pages[pg].Table? && |s.pages[pg].ptes| == PTES
              && s.pages[pg].ptes[v % PTES] == Flat(s, r, v)
  {
    KeyFacts(s, Key(r, 0, v / PTES));
  }

  /** While a copy is being made its source stays as it was. */
  lemma CopyReady(a: St, b: St, from: nat, to: nat, i: nat)
    requires Wf(a, {}) && Wf(b, {}) && Populated(a, b, to, 0, FlagsOf(a, from, i), BytesOf(a, from, i))
    requires Where(from, i) in a.leaf && Flat(a, to, i) == 0
    ensures var x, e := Where(from, i), Flat(a, from, i);
            && from != to && x in b.leaf && LeafKey(x) in b.node && Flat(b, from, i) == e && Valid(e)
            && Ppn(e) in b.pages && b.pages[Ppn(e)].Data? && b.pages[Ppn(e)].bytes == Bytes(a, x)
               && |Bytes(a, x)| == PGSIZE
            && MapsPage(Flags(e)) && WithV(Flags(e)) == Flags(e)
  {
    hide Wf, Flags, Bit, MapsPage, Flat, Fresh;
    var x, e := Where(from, i), Flat(a, from, i);
    FlatOk(a, from, i);
    FlatOk(a, to, i);
    ZeroInvalid();
    UserFacts(a, x);
    UserFacts(b, x);
    assert from != to;
    assert !Within(x, to, 0, i);
    assert PageKept(a, b, a.leaf[x]);
    PteDecode(e);
  }

  lemma PopulatedRoot2(a: St, b: St, r: nat, to: nat, lo: nat, flags: seq<nat>, data: seq<seq<bv8>>)
    requires |flags| == |data| && forall i :: 0 <= i < |flags| ==> flags[i] < FLAGS
    requires Populated(a, b, to, lo, flags, data) && Root(r) in a.node && Root(to) in a.node
    ensures Root(r) in b.node && Root(to) in b.node
  {
  }

  lemma EmptyEntry(a: St, b: St, k: Key, i: nat)
    requires k.level == 0 && k in b.node && Pruned(a, b, k.root, k.level, k) && i < PTES
    requires forall v: nat :: Flat(a, k.root, v) == 0
    ensures Entry(b.pages, b.node[k], i) == 0 && !Valid(0)
  {
    var v := k.pre * PTES + i;
    assert v / PTES == k.pre && v % PTES == i;
    assert Flat(b, k.root, v) == Flat(a, k.root, v);
  }

  lemma StillUnmapped(a: St, b: St, k: Key)
    requires Pruned(a, b, k.root, k.level, k)
    requires forall v: nat :: Flat(a, k.root, v) == 0
    ensures forall v: nat :: Flat(b, k.root, v) == 0
  {
    hide Flat;
    forall v: nat ensures Flat(b, k.root, v) == 0 { assert Flat(b, k.root, v) == Flat(a, k.root, v); }
  }

  lemma DropFacts(s: St, k: Key)
    requires k in s.node
    ensures Drop(s, k) == s.(node := s.node - {k}, own := s.own[s.node[k] := Other])
  {
  }

  lemma RootFacts(a: St, b: St, r: nat, n: nat)
    requires Wf(b, {}) && Root(r) in a.node && Unmapped(a, b, r, 0, n, true)
    requires forall u: nat :: n <= u ==> Flat(a, r, u) == 0
    ensures Root(r) in b.node && b.node[Root(r)] == r && forall v: nat :: Flat(b, r, v) == 0
  {
    hide Flat;
    KeyFacts(b, Root(r));
    forall v: nat ensures Flat(b, r, v) == 0 { assert v >= n ==> Flat(a, r, v) == 0; }
  }

  lemma AsCopied(s: St, r: nat, va: nat, got: seq<bv8>)
    requires forall a: nat :: va <= a < va + |got| ==> Readable(s, r, a / PGSIZE)
    requires forall i :: 0 <= i < |got| ==> ByteAt(s, r, va + i) == Some(got[i])
    ensures Copied(s, r, va, |got|) == Some(got)
  {
    hide Readable, ByteAt;
    assert Copied(s, r, va, |got|).value == got;
  }

  lemma NoEntry(s: St, r: nat, v: nat)
    requires Key(r, 0, v / PTES) !in s.node
    ensures !Readable(s, r, v)
  {
    ZeroInvalid();
  }

  /** The test walkaddr makes is enough: an entry with V and U maps the user memory that belongs there. */
  lemma ReadableFacts(s: St, r: nat, v: nat)
    requires Wf(s, {}) && v < MAXPAGES && Valid(Flat(s, r, v)) && Bit(Flat(s, r, v), U)
    ensures Readable(s, r, v) && s.leaf[Where(r, v)] == Ppn(Flat(s, r, v))
    ensures var pg := s.leaf[Where(r, v)];
            pg in s.pages && s.pages[pg].Data? && |s.pages[pg].bytes| == PGSIZE && pg in s.own
              && s.own[pg] == User(Where(r, v))
  {
    hide Bit, MapsPage;
    FlatOk(s, r, v);
    UserFacts(s, Where(r, v));
  }

  lemma SamePage(src: nat, a: nat, n: nat)
    requires src <= a < src + n && n <= PGSIZE - src % PGSIZE
    ensures a / PGSIZE == src / PGSIZE && a % PGSIZE == src % PGSIZE + (a - src)
  {
  }

  lemma ByteFacts(s: St, r: nat, a: nat)
    requires Wf(s, {}) && Readable(s, r, a / PGSIZE)
    ensures var pg := s.leaf[Where(r, a / PGSIZE)];
            pg in s.pages && s.pages[pg].Data? && |s.pages[pg].bytes| == PGSIZE
              && ByteAt(s, r, a) == Some(s.pages[pg].bytes[a % PGSIZE])
  {
    UserFacts(s, Where(r, a / PGSIZE));
  }

  lemma WrittenNone(s: St, r: nat, va: nat)
    ensures Written(s, s, r, va, [])
  {
  }

  /** The tests copyout makes for a page. */
  lemma WritableFacts(s: St, r: nat, v: nat)
    requires Wf(s, {})
    ensures var e := Flat(s, r, v); Writable(s, r, v) <==> v < MAXPAGES && Valid(e) && Bit(e, U) && Bit(e, W)
    ensures Writable(s, r, v) ==>
              var pg := Ppn(Flat(s, r, v));
              && Where(r, v) in s.leaf && s.leaf[Where(r, v)] == pg && pg in s.own && s.own[pg].User?
              && pg in s.pages && s.pages[pg].Data? && |s.pages[pg].bytes| == PGSIZE
    ensures Key(r, 0, v / PTES) !in s.node ==> !Valid(Flat(s, r, v))
  {
    hide Bit, MapsPage;
    FlatOk(s, r, v);
    UserFacts(s, Where(r, v));
    ZeroInvalid();
  }

  lemma StillWritable(s: St, s': St, r: nat, v: nat)
    requires s'.leaf == s.leaf && SameFlat(s, s') && Writable(s, r, v)
    ensures Writable(s', r, v)
  {
    hide Flat, Bit;
    assert Flat(s', r, v) == Flat(s, r, v);
  }

  lemma WrittenMore(a: St, b: St, r: nat, va: nat, src: seq<bv8>, sent: nat, n: nat)
    requires Wf(b, {}) && sent + n <= |src| && Written(a, b, r, va, src[..sent])
    requires var dst := va + sent; n <= PGSIZE - dst % PGSIZE && Writable(b, r, dst / PGSIZE)
    ensures var dst := va + sent;
            var pg, o := b.leaf[Where(r, dst / PGSIZE)], dst % PGSIZE;
            && pg in b.pages && b.pages[pg].Data? && |b.pages[pg].bytes| == PGSIZE
            && var page := b.pages[pg].bytes;
            Written(a, Store(b, pg, page[..o] + src[sent..sent + n] + page[o + n..]), r, va, src[..sent + n])
  {
    hide Flat, ByteAt, Wf, LeafOk;
    var dst := va + sent;
    var x := Where(r, dst / PGSIZE);
    WritableFacts(b, r, dst / PGSIZE);
    var pg, o := b.leaf[x], dst % PGSIZE;
    var page := b.pages[pg].bytes;
    var bytes := page[..o] + src[sent..sent + n] + page[o + n..];
    var c := Store(b, pg, bytes);
    StoreWf(b, pg, bytes);
    forall r', u: nat ensures Flat(c, r', u) == Flat(a, r', u) {
      assert Flat(c, r', u) == Flat(b, r', u);
    }
    var data := src[..sent + n];
    forall r', u: nat
      ensures ByteAt(c, r', u) == if r' == r && va <= u < va + |data| then Some(data[u - va]) else ByteAt(a, r', u)
    {
      ByteStored(b, r, dst, src[sent..sent + n], r', u);
    }
  }

  /** One page's worth of bytes stored. Other places are not affected, since no other place maps the page. */
  lemma ByteStored(b: St, r: nat, dst: nat, data: seq<bv8>, r': nat, u: nat)
    requires Wf(b, {}) && |data| <= PGSIZE - dst % PGSIZE
    requires var x := Where(r, dst / PGSIZE);
             x in b.leaf && b.leaf[x] in b.pages && b.pages[b.leaf[x]].Data? && |b.pages[b.leaf[x]].bytes| == PGSIZE
    ensures var pg, o := b.leaf[Where(r, dst / PGSIZE)], dst % PGSIZE;
            var page := b.pages[pg].bytes;
            ByteAt(Store(b, pg, page[..o] + data + page[o + |data|..]), r', u)
              == if r' == r && dst <= u < dst + |data| then Some(data[u - dst]) else ByteAt(b, r', u)
  {
    hide Wf, Flat;
    var x, y := Where(r, dst / PGSIZE), Where(r', u / PGSIZE);
    UserFacts(b, x);
    UserFacts(b, y);
    if x == y && dst <= u < dst + |data| { SamePage(dst, u, |data|); }
  }

  /** Two places in user memory never share a page, whether in one address space or in two. */
  lemma NeverShared(s: St, r: nat, v: nat, r': nat, v': nat)
    requires Wf(s, {}) && v < MAXPAGES && v' < MAXPAGES && (r, v) != (r', v')
    requires Valid(Flat(s, r, v)) && Bit(Flat(s, r, v), U) && Valid(Flat(s, r', v')) && Bit(Flat(s, r', v'), U)
    ensures Ppn(Flat(s, r, v)) != Ppn(Flat(s, r', v'))
  {
    UserReach(s, r, v);
    UserReach(s, r', v');
  }
}
