/**
 What the operations on address spaces do to the state as a whole, and how
 these effects compose: growing a page-table tree, populating a range of
 virtual pages with fresh memory, removing a range, and undoing one by the other.
 */
module VmEffects {
  import opened Sv39
  import opened VmSpec

  /** A page in use stays in the same use, with its contents unless it is a table; no page ends up in nobody's hands. */
  predicate PageKept(s: St, s': St, p: nat) {
    && (p in s.own <==> p in s'.own)
    && (p in s.own && s.own[p] != Free ==> s'.own[p] == s.own[p])
    && (p in s.own && (s.own[p].User? || s.own[p].Other?) && p in s.pages ==>
       p in s'.pages && s'.pages[p] == s.pages[p])
    && (p in s.own && s'.own[p] == Other ==> s.own[p] == Other)
  }

  ghost predicate Kept(s: St, s': St) {
    forall p: nat {:trigger PageKept(s, s', p)} :: PageKept(s, s', p)
  }

  /** Tables may have been added to the address space r, none removed. */
  ghost predicate Tables(s: St, s': St, r: nat) {
    && (forall k :: k in s.node ==> k in s'.node && s'.node[k] == s.node[k])
    && (forall k :: k in s'.node && k !in s.node ==> k.root == r)
  }

  /** Nothing has changed but that free pages became tables of the address space r. */
  ghost predicate Grown(s: St, s': St, r: nat) {
    Kept(s, s') && Tables(s, s', r) && s'.leaf == s.leaf && SameFlat(s, s')
  }

  lemma GrownSame(s: St, r: nat)
    ensures Grown(s, s, r)
  {
    forall p: nat ensures PageKept(s, s, p) {}
  }

  lemma KeptTrans(a: St, b: St, c: St)
    requires Kept(a, b) && Kept(b, c)
    ensures Kept(a, c)
  {
    forall p: nat ensures PageKept(a, c, p) {
      assert PageKept(a, b, p) && PageKept(b, c, p);
    }
  }

  lemma GrownTrans(a: St, b: St, c: St, r: nat)
    requires Grown(a, b, r) && Grown(b, c, r)
    ensures Grown(a, c, r)
  {
    hide PageKept, Flat;
    KeptTrans(a, b, c);
  }

  lemma GrownLink(s: St, k: Key, idx: nat)
    requires Wf(s, {}) && k in s.node && k.level > 0 && idx < PTES && Child(k, idx) !in s.node && s.free != []
    ensures Wf(Alloc(s), {}) && KeyAt(Alloc(s), k)
    ensures var s' := Link(Alloc(s), k, idx, s.free[0]); Wf(s', {}) && Grown(s, s', k.root)
  {
    AllocWf(s, {});
    var m, c := Alloc(s), s.free[0];
    assert KeyAt(m, k) && KeyAt(s, k);
    LinkWf(m, k, idx, c);
    var s' := Link(m, k, idx, c);
    forall p: nat ensures PageKept(s, s', p) {
      assert PageAt(s, p);
    }
    forall r: nat, v: nat ensures Flat(s', r, v) == Flat(s, r, v) {
      assert Flat(s', r, v) == Flat(m, r, v) && Flat(m, r, v) == Flat(s, r, v);
    }
  }

  // ----- mapping pages -----

  /** Pages pg, pg + 1, ... have been entered at the n virtual pages from v on; if `mine`, as user memory. */
  ghost predicate Mapped(s: St, s': St, r: nat, v: nat, pg: nat, flags: nat, n: nat, mine: bool)
    requires flags < FLAGS
  {
    && Tables(s, s', r)
    && (forall r', u: nat :: Flat(s', r', u) == if r' == r && v <= u < v + n
                             then Pte(pg + (u - v), flags) else Flat(s, r', u))
    && (forall x :: x in s'.leaf <==> x in s.leaf || (mine && x.root == r && v <= x.vpn < v + n))
    && (forall x :: x in s'.leaf ==> s'.leaf[x] == if mine && x.root == r && v <= x.vpn < v + n
                                     then pg + (x.vpn - v) else if x in s.leaf then s.leaf[x] else 0)
    && (forall p: nat {:trigger PageMapped(s, s', r, v, pg, n, mine, p)} :: PageMapped(s, s', r, v, pg, n, mine, p))
  }

  predicate PageMapped(s: St, s': St, r: nat, v: nat, pg: nat, n: nat, mine: bool, p: nat) {
    if mine && pg <= p < pg + n then
      p in s'.own && s'.own[p] == User(Where(r, v + (p - pg))) && p in s.pages && p in s'.pages
        && s'.pages[p] == s.pages[p]
    else
      PageKept(s, s', p)
  }

  lemma MappedNone(s: St, r: nat, v: nat, pg: nat, flags: nat, mine: bool)
    requires flags < FLAGS
    ensures Mapped(s, s, r, v, pg, flags, 0, mine)
  {
    forall p: nat ensures PageMapped(s, s, r, v, pg, 0, mine, p) {}
  }

  lemma MappedGrown(a: St, b: St, c: St, r: nat, v: nat, pg: nat, flags: nat, n: nat, mine: bool)
    requires flags < FLAGS && Mapped(a, b, r, v, pg, flags, n, mine) && Grown(b, c, r)
    ensures Mapped(a, c, r, v, pg, flags, n, mine)
  {
    hide Flat, Pte;
    forall p: nat ensures PageMapped(a, c, r, v, pg, n, mine, p) {
      assert PageMapped(a, b, r, v, pg, n, mine, p) && PageKept(b, c, p);
    }
    forall r', u: nat
      ensures Flat(c, r', u) == if r' == r && v <= u < v + n then Pte(pg + (u - v), flags) else Flat(a, r', u)
    {
      assert Flat(c, r', u) == Flat(b, r', u);
    }
  }

  lemma MappedStep(a: St, b: St, r: nat, v: nat, pg: nat, flags: nat, n: nat, mine: bool)
    requires flags < FLAGS && Mapped(a, b, r, v, pg, flags, n, mine) && Wf(b, {})
    requires CanMap(b, Where(r, v + n), Pte(pg + n, flags), mine)
    requires mine ==> pg + n in a.own && a.own[pg + n] == Other && pg + n in a.pages
    ensures var c := Map(b, Where(r, v + n), Pte(pg + n, flags), mine);
            Wf(c, {}) && Mapped(a, c, r, v, pg, flags, n + 1, mine)
  {
    hide Flat, Pte, Valid, MapsPage, Bit, Ppn, SlotAt, UserAt, PageAt, LeafOk;
    var x, e, m := Where(r, v + n), Pte(pg + n, flags), n + 1;
    var c := Map(b, x, e, mine);
    MapWf(b, x, e, mine);
    PteRoundTrip(pg + n, flags);
    assert KeyAt(b, LeafKey(x));
    forall p: nat ensures PageMapped(a, c, r, v, pg, m, mine, p) {
      assert PageMapped(a, b, r, v, pg, n, mine, p);
    }
    forall r', u: nat
      ensures Flat(c, r', u) == if r' == r && v <= u < v + m then Pte(pg + (u - v), flags) else Flat(a, r', u)
    {
      assert Flat(c, r', u) == if r' == r && u == v + n then e else Flat(b, r', u);
    }
  }

  // ----- populating a range with fresh memory -----

  /** Virtual page v now has memory of its own, taken from the free list. */
  predicate Fresh(s: St, s': St, x: Where, flags: nat, bytes: seq<bv8>)
    requires flags < FLAGS
  {
    && x in s'.leaf && s'.leaf[x] in s.own && s.own[s'.leaf[x]] == Free
    && s'.leaf[x] in s'.pages && s'.pages[s'.leaf[x]] == Data(bytes)
    && Flat(s', x.root, x.vpn) == Pte(s'.leaf[x], flags)
  }

  predicate Within(x: Where, r: nat, lo: nat, hi: nat) {
    x.root == r && lo <= x.vpn < hi
  }

  /** The pages from lo on have been populated with the given contents and flags; nothing else has changed
      but that free pages became tables of r. */
  ghost predicate Populated(s: St, s': St, r: nat, lo: nat, flags: seq<nat>, data: seq<seq<bv8>>)
    requires |flags| == |data| && forall i :: 0 <= i < |flags| ==> flags[i] < FLAGS
  {
    var hi := lo + |flags|;
    && Tables(s, s', r) && Kept(s, s')
    && (forall i :: 0 <= i < |flags| ==> Fresh(s, s', Where(r, lo + i), flags[i], data[i]))
    && (forall x :: !Within(x, r, lo, hi) ==>
                    (x in s'.leaf <==> x in s.leaf) && (x in s.leaf ==> s'.leaf[x] == s.leaf[x]))
    && (forall r', u: nat :: !(r' == r && lo <= u < hi) ==> Flat(s', r', u) == Flat(s, r', u))
  }

  lemma PopulatedNone(s: St, r: nat, lo: nat)
    ensures Populated(s, s, r, lo, [], [])
  {
    forall p: nat ensures PageKept(s, s, p) {}
  }

  lemma PopulatedOne(a: St, m: St, c: St, r: nat, v: nat, flags: nat, bytes: seq<bv8>)
    requires Wf(a, {}) && Wf(m, {}) && Wf(c, {}) && a.free != [] && flags < FLAGS && |bytes| == PGSIZE
    requires m == Store(Alloc(a), a.free[0], bytes) && Mapped(m, c, r, v, a.free[0], flags, 1, true)
    ensures Populated(a, c, r, v, [flags], [bytes])
  {
    hide Pte, Filled;
    var pg := a.free[0];
    assert PageAt(a, pg);
    forall p: nat ensures PageKept(a, c, p) {
      assert PageAt(a, p) && PageMapped(m, c, r, v, pg, 1, true, p);
    }
    AllocWf(a, {});
    StoreWf(Alloc(a), pg, bytes);
    forall r', u: nat ensures !(r' == r && u == v) ==> Flat(c, r', u) == Flat(a, r', u) {
      assert Flat(m, r', u) == Flat(Alloc(a), r', u) && Flat(Alloc(a), r', u) == Flat(a, r', u);
    }
    assert Fresh(a, c, Where(r, v), flags, bytes) by {
      assert PageMapped(m, c, r, v, pg, 1, true, pg);
      assert Flat(c, r, v) == Pte(pg + (v - v), flags);
    }
  }

  lemma PopulatedMore(a: St, b: St, c: St, r: nat, lo: nat, flags: seq<nat>, data: seq<seq<bv8>>, f: nat, d: seq<bv8>)
    requires Wf(b, {}) && |flags| == |data| && f < FLAGS && forall i :: 0 <= i < |flags| ==> flags[i] < FLAGS
    requires Populated(a, b, r, lo, flags, data) && Populated(b, c, r, lo + |flags|, [f], [d])
    ensures Populated(a, c, r, lo, flags + [f], data + [d])
  {
    hide Flat, Pte;
    KeptTrans(a, b, c);
    var n := |flags|;
    forall i | 0 <= i <= n ensures Fresh(a, c, Where(r, lo + i), (flags + [f])[i], (data + [d])[i]) {
      var x := Where(r, lo + i);
      if i < n {
        assert Fresh(a, b, x, flags[i], data[i]);
        assert UserAt(b, x) && PageKept(b, c, b.leaf[x]);
        assert !Within(x, r, lo + n, lo + n + 1);
        assert Flat(c, r, lo + i) == Flat(b, r, lo + i);
      } else {
        assert Fresh(b, c, Where(r, lo + n + 0), [f][0], [d][0]);
        assert PageKept(a, b, c.leaf[x]);
      }
    }
    forall x | !Within(x, r, lo, lo + n + 1)
      ensures (x in c.leaf <==> x in a.leaf) && (x in a.leaf ==> c.leaf[x] == a.leaf[x])
    {
      assert !Within(x, r, lo, lo + n) && !Within(x, r, lo + n, lo + n + 1);
    }
    forall r', u: nat | !(r' == r && lo <= u < lo + n + 1) ensures Flat(c, r', u) == Flat(a, r', u) {
      assert Flat(c, r', u) == Flat(b, r', u);
    }
  }

  // ----- removing a range -----

  /** The pages of [lo, hi) are no longer mapped; their memory is free, or in the caller's hands. */
  ghost predicate Unmapped(s: St, s': St, r: nat, lo: nat, hi: nat, freed: bool) {
    && s'.node == s.node
    && (forall x :: x in s'.leaf <==> x in s.leaf && !Within(x, r, lo, hi))
    && (forall x :: x in s'.leaf ==> x in s.leaf && s'.leaf[x] == s.leaf[x])
    && (forall r', u: nat :: Flat(s', r', u) == if r' == r && lo <= u < hi then 0 else Flat(s, r', u))
    && (forall p: nat {:trigger PageUnmapped(s, s', r, lo, hi, freed, p)} :: PageUnmapped(s, s', r, lo, hi, freed, p))
  }

  predicate PageUnmapped(s: St, s': St, r: nat, lo: nat, hi: nat, freed: bool, p: nat) {
    && (p in s.own <==> p in s'.own)
    && (p in s.own ==>
          if s.own[p].User? && Within(s.own[p].at, r, lo, hi) then
            s'.own[p] == if freed then Free else Other
          else
            && s'.own[p] == s.own[p]
            && ((s.own[p].User? || s.own[p].Other?) && p in s.pages ==> p in s'.pages && s'.pages[p] == s.pages[p]))
  }

  lemma UnmappedNone(s: St, r: nat, lo: nat, freed: bool)
    ensures Unmapped(s, s, r, lo, lo, freed)
  {
    forall p: nat ensures PageUnmapped(s, s, r, lo, lo, freed, p) {}
  }

  /** Clearing one entry, after its page (if it was user memory and is to be freed) went to the free list. */
  function RemoveOne(s: St, x: Where, freed: bool): St
    requires LeafKey(x) in s.node
  {
    var d := Disown(s, x);
    Clear(if freed && x in s.leaf then Release(d, s.leaf[x]) else d, LeafKey(x), x.vpn % PTES)
  }

  lemma RemoveOneWf(s: St, x: Where, freed: bool)
    requires Wf(s, {}) && LeafKey(x) in s.node
    ensures Wf(RemoveOne(s, x, freed), {}) && Unmapped(s, RemoveOne(s, x, freed), x.root, x.vpn, x.vpn + 1, freed)
  {
    hide Filled, SlotAt, LeafOk, PageAt, KeyAt, PageUnmapped;
    var d := Disown(s, x);
    DisownWf(s, x);
    assert UserAt(s, x);
    var m := if freed && x in s.leaf then Release(d, s.leaf[x]) else d;
    if freed && x in s.leaf { ReleaseWf(d, {LeafSlot(x)}, s.leaf[x]); }
    SlotOf(x, LeafKey(x), x.vpn % PTES);
    ClearWf(m, LeafKey(x), x.vpn % PTES);
    var s', hi := RemoveOne(s, x, freed), x.vpn + 1;
    forall p: nat ensures PageUnmapped(s, s', x.root, x.vpn, hi, freed, p) {
      RemoveOnePage(s, x, freed, p);
    }
    forall r', u: nat ensures Flat(s', r', u) == if r' == x.root && u == x.vpn then 0 else Flat(s, r', u) {
      assert Flat(m, r', u) == Flat(d, r', u) && Flat(d, r', u) == Flat(s, r', u);
    }
  }

  lemma RemoveOnePage(s: St, x: Where, freed: bool, p: nat)
    requires Wf(s, {}) && LeafKey(x) in s.node
    ensures PageUnmapped(s, RemoveOne(s, x, freed), x.root, x.vpn, x.vpn + 1, freed, p)
  {
    hide Filled, SlotAt, LeafOk;
    assert UserAt(s, x) && PageAt(s, p) && KeyAt(s, LeafKey(x));
  }

  lemma UnmappedMore(a: St, b: St, c: St, r: nat, lo: nat, mid: nat, freed: bool)
    requires lo <= mid && Unmapped(a, b, r, lo, mid, freed) && Unmapped(b, c, r, mid, mid + 1, freed)
    ensures Unmapped(a, c, r, lo, mid + 1, freed)
  {
    hide Flat;
    var hi := mid + 1;
    forall p: nat ensures PageUnmapped(a, c, r, lo, hi, freed, p) {
      assert PageUnmapped(a, b, r, lo, mid, freed, p) && PageUnmapped(b, c, r, mid, hi, freed, p);
    }
    forall r', u: nat ensures Flat(c, r', u) == if r' == r && lo <= u < hi then 0 else Flat(a, r', u) {
      assert Flat(c, r', u) == if r' == r && mid <= u < hi then 0 else Flat(b, r', u);
    }
  }

  /** Rollback: populating a range, growing the tree some more and removing the range again
      leaves nothing behind but tables. */
  lemma RolledBack(a: St, b: St, c: St, d: St, r: nat, lo: nat, flags: seq<nat>, data: seq<seq<bv8>>)
    requires Wf(a, {}) && |flags| == |data| && forall i :: 0 <= i < |flags| ==> flags[i] < FLAGS
    requires forall u: nat :: lo <= u < lo + |flags| ==> Flat(a, r, u) == 0
    requires Populated(a, b, r, lo, flags, data) && Grown(b, c, r) && Unmapped(c, d, r, lo, lo + |flags|, true)
    ensures Grown(a, d, r)
  {
    hide Flat, Pte, Fresh;
    var hi := lo + |flags|;
    forall x ensures (x in d.leaf <==> x in a.leaf) && (x in a.leaf ==> d.leaf[x] == a.leaf[x]) {
      if Within(x, r, lo, hi) { FlatOk(a, x.root, x.vpn); ZeroInvalid(); assert x !in a.leaf; }
    }
    forall p: nat ensures PageKept(a, d, p) {
      assert PageKept(a, b, p) && PageKept(b, c, p) && PageUnmapped(c, d, r, lo, hi, true, p);
      assert PageAt(a, p);
    }
    forall r', u: nat ensures Flat(d, r', u) == Flat(a, r', u) {
      assert Flat(d, r', u) == if r' == r && lo <= u < hi then 0 else Flat(c, r', u);
      assert Flat(c, r', u) == Flat(b, r', u);
    }
  }

  /** A page taken for an entry that could not be made, and given back. */
  lemma FailedOne(a: St, m: St, b: St, r: nat, v: nat, flags: nat, bytes: seq<bv8>)
    requires Wf(a, {}) && Wf(m, {}) && a.free != [] && flags < FLAGS && |bytes| == PGSIZE
    requires m == Store(Alloc(a), a.free[0], bytes) && Mapped(m, b, r, v, a.free[0], flags, 0, true) && Wf(b, {})
    ensures var c := a.free[0]; c in b.own && b.own[c] == Other && Grown(a, Release(b, c), r)
  {
    hide Pte, Filled;
    var c := a.free[0];
    var d := Release(b, c);
    assert PageAt(a, c) && PageMapped(m, b, r, v, c, 0, true, c);
    ReleaseWf(b, {}, c);
    AllocWf(a, {});
    StoreWf(Alloc(a), c, bytes);
    forall p: nat ensures PageKept(a, d, p) {
      assert PageAt(a, p) && PageMapped(m, b, r, v, c, 0, true, p);
    }
    forall r', u: nat ensures Flat(d, r', u) == Flat(a, r', u) {
      assert Flat(m, r', u) == Flat(Alloc(a), r', u) && Flat(Alloc(a), r', u) == Flat(a, r', u)
             && Flat(d, r', u) == Flat(b, r', u);
    }
    assert d.leaf == a.leaf;
  }

  // ----- contents of user memory -----

  function Bytes(s: St, x: Where): seq<bv8> {
    if x in s.leaf && s.leaf[x] in s.pages && s.pages[s.leaf[x]].Data? then s.pages[s.leaf[x]].bytes else []
  }

  function FlagsOf(s: St, r: nat, n: nat): (f: seq<nat>)
    ensures |f| == n && forall i :: 0 <= i < n ==> f[i] < FLAGS && f[i] == Flags(Flat(s, r, i))
  {
    seq(n, i requires 0 <= i => Flags(Flat(s, r, i)))
  }

  function BytesOf(s: St, r: nat, n: nat): (d: seq<seq<bv8>>)
    ensures |d| == n && forall i :: 0 <= i < n ==> d[i] == Bytes(s, Where(r, i))
  {
    seq(n, i requires 0 <= i => Bytes(s, Where(r, i)))
  }

  function Repeat<T>(n: nat, t: T): (q: seq<T>)
    ensures |q| == n && forall i :: 0 <= i < n ==> q[i] == t
  {
    seq(n, _ => t)
  }

  lemma MoreOf(s: St, r: nat, n: nat)
    ensures FlagsOf(s, r, n) + [Flags(Flat(s, r, n))] == FlagsOf(s, r, n + 1)
    ensures BytesOf(s, r, n) + [Bytes(s, Where(r, n))] == BytesOf(s, r, n + 1)
  {
  }

  // ----- freeing tables -----

  /** Tables of r below level l are gone and their pages free; no other table has changed, but perhaps `keep`. */
  ghost predicate Pruned(s: St, s': St, r: nat, l: nat, keep: Key) {
    && s'.leaf == s.leaf && SameFlat(s, s')
    && (forall j :: j in s'.node ==> j in s.node && s'.node[j] == s.node[j])
    && (forall j :: j in s.node && j !in s'.node ==> j.root == r && j.level < l)
    && (forall p: nat {:trigger PagePruned(s, s', keep, p)} :: PagePruned(s, s', keep, p))
  }

  predicate PagePruned(s: St, s': St, keep: Key, p: nat) {
    && (p in s.own <==> p in s'.own)
    && (p in s.own ==>
          if s.own[p].Node? && s.own[p].key !in s'.node then
            s'.own[p] == Free
          else
            && s'.own[p] == s.own[p]
            && (s.own[p] != Free && s.own[p] != Node(keep) && p in s.pages ==>
               p in s'.pages && s'.pages[p] == s.pages[p]))
  }

  /** Table k and what was below it are gone. */
  ghost predicate Freed(s: St, s': St, k: Key) {
    Pruned(s, s', k.root, k.level + 1, k) && k !in s'.node
  }

  lemma PrunedNone(s: St, k: Key)
    requires Wf(s, {})
    ensures Pruned(s, s, k.root, k.level, k)
  {
    forall p: nat ensures PagePruned(s, s, k, p) { assert PageAt(s, p); }
  }

  lemma PrunedStep(a: St, b: St, c: St, k: Key, i: nat)
    requires Wf(a, {}) && Wf(b, {}) && k in b.node && k.level > 0 && i < PTES && Pruned(a, b, k.root, k.level, k)
    requires Child(k, i) in b.node && Freed(b, c, Child(k, i)) && Wf(c, {ParentSlot(Child(k, i))})
    ensures k in c.node && c.node[k] == b.node[k]
    ensures var d := Clear(c, k, i); Wf(d, {}) && Pruned(a, d, k.root, k.level, k)
    ensures var d := Clear(c, k, i);
            forall i': nat :: Entry(d.pages, d.node[k], i') == if i' == i then 0 else Entry(b.pages, b.node[k], i')
  {
    hide SlotAt, LeafOk, UserAt, Flat;
    var kid, d := Child(k, i), Clear(c, k, i);
    ChildParent(k, i, k, i);
    ClearWf(c, k, i);
    assert KeyAt(b, k) && KeyAt(c, k);
    var pg := b.node[k];
    assert PagePruned(b, c, kid, pg) && PageAt(b, pg);
    assert c.pages[pg] == b.pages[pg];
    forall i': nat ensures Entry(d.pages, pg, i') == if i' == i then 0 else Entry(b.pages, pg, i') {
      EntryAfter(c.pages, pg, i, 0, pg, i');
    }
    forall p: nat ensures PagePruned(a, d, k, p) {
      PageStep(a, b, c, k, i, p);
    }
    forall r: nat, v: nat ensures Flat(d, r, v) == Flat(a, r, v) {
      assert Flat(d, r, v) == Flat(c, r, v) && Flat(c, r, v) == Flat(b, r, v);
    }
  }

  lemma PageStep(a: St, b: St, c: St, k: Key, i: nat, p: nat)
    requires Wf(a, {}) && Wf(b, {}) && k in b.node && k in c.node && k.level > 0 && Pruned(a, b, k.root, k.level, k)
    requires KeyAt(c, k) && c.node[k] == b.node[k] && Freed(b, c, Child(k, i)) && Wf(c, {ParentSlot(Child(k, i))})
    ensures PagePruned(a, Clear(c, k, i), k, p)
  {
    hide SlotAt, LeafOk, UserAt, Flat;
    var kid := Child(k, i);
    assert PagePruned(a, b, k, p) && PagePruned(b, c, kid, p) && PageAt(b, p) && PageAt(a, p) && PageAt(c, p);
    assert KeyAt(b, k);
  }

  lemma PrunedDrop(a: St, b: St, k: Key)
    requires Wf(b, {}) && k in a.node && k in b.node && Pruned(a, b, k.root, k.level, k)
    requires forall i :: 0 <= i < PTES ==> Entry(b.pages, b.node[k], i) == 0
    ensures var m := Drop(b, k); Wf(m, {ParentSlot(k)}) && b.node[k] in m.own && m.own[b.node[k]] == Other
    ensures Freed(a, Release(Drop(b, k), b.node[k]), k)
  {
    hide SlotAt, LeafOk, UserAt, Flat, Filled, Entry;
    var pg, l := b.node[k], k.level + 1;
    assert KeyAt(b, k);
    DropWf(b, k);
    var m := Drop(b, k);
    ReleaseWf(m, {ParentSlot(k)}, pg);
    var d := Release(m, pg);
    forall p: nat ensures PagePruned(a, d, k, p) {
      assert PagePruned(a, b, k, p) && PageAt(b, p) && PagePruned(a, b, k, pg);
    }
    forall r: nat, v: nat ensures Flat(d, r, v) == Flat(a, r, v) {
      assert Flat(d, r, v) == Flat(m, r, v) && Flat(m, r, v) == Flat(b, r, v) && Flat(b, r, v) == Flat(a, r, v);
    }
    assert Pruned(a, d, k.root, l, k);
  }

  // ----- the end of an address space -----

  predicate Belongs(o: Owner, r: nat) {
    (o.Node? && o.key.root == r) || (o.User? && o.at.root == r)
  }

  predicate PageGone(s: St, s': St, r: nat, p: nat) {
    && (p in s.own <==> p in s'.own)
    && (p in s.own ==>
          if Belongs(s.own[p], r) then s'.own[p] == Free
          else s'.own[p] == s.own[p] && ((s.own[p].User? || s.own[p].Other?) && p in s.pages ==>
               p in s'.pages && s'.pages[p] == s.pages[p]))
  }

  /** Every page of r, table or memory, is free; nothing else has changed. */
  ghost predicate Gone(s: St, s': St, r: nat) {
    && (forall k :: k in s'.node <==> k in s.node && k.root != r)
    && (forall k :: k in s'.node ==> s'.node[k] == s.node[k])
    && (forall x :: x in s'.leaf <==> x in s.leaf && x.root != r)
    && (forall x :: x in s'.leaf ==> s'.leaf[x] == s.leaf[x])
    && (forall r', u: nat :: Flat(s', r', u) == if r' == r then 0 else Flat(s, r', u))
    && (forall p: nat {:trigger PageGone(s, s', r, p)} :: PageGone(s, s', r, p))
  }

  lemma AllGone(a: St, b: St, c: St, r: nat, n: nat)
    requires Wf(a, {}) && Wf(b, {}) && Wf(c, {})
    requires Unmapped(a, b, r, 0, n, true) && Freed(b, c, Root(r))
    requires forall u: nat :: n <= u ==> Flat(a, r, u) == 0
    ensures Gone(a, c, r)
  {
    hide SlotAt, LeafOk, UserAt, Flat, Entry, KeyAt;
    forall j: Key | j.root == r ensures j !in c.node { NoTables(c, {}, r, j); }
    forall x ensures x in c.leaf <==> x in a.leaf && x.root != r {
      if x.root == r && n <= x.vpn { FlatOk(a, r, x.vpn); ZeroInvalid(); NotLeaf(a.leaf, x); }
    }
    forall r', u: nat ensures Flat(c, r', u) == if r' == r then 0 else Flat(a, r', u) {
      assert Flat(c, r', u) == Flat(b, r', u);
    }
    forall p: nat ensures PageGone(a, c, r, p) {
      assert PageUnmapped(a, b, r, 0, n, true, p) && PagePruned(b, c, Root(r), p) && PageAt(a, p) && PageAt(b, p);
    }
  }

  lemma NotLeaf(leaf: map<Where, nat>, x: Where)
    requires LeafOk(leaf, x, 0)
    ensures x !in leaf
  {
  }
}
