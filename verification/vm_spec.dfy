/**
 Page tables in physical memory. A page is on the free list, a table of one
 address space, a page of user memory mapped at one place of one address space,
 or in other use by the kernel. `own` records which, `node` and `leaf` record
 where; the invariant ties these records to the contents of the tables.
 */
module VmSpec {
  import opened Sv39

  datatype Page = Table(ptes: seq<nat>) | Data(bytes: seq<bv8>)

  /** A table: the address space it belongs to, by root page, its level and its prefix. */
  datatype Key = Key(root: nat, level: nat, pre: nat)

  /** A virtual page of an address space. */
  datatype Where = Where(root: nat, vpn: nat)

  datatype Owner = Free | Node(key: Key) | User(at: Where) | Other

  datatype Slot = Slot(key: Key, idx: nat)

  type Pages = map<nat, Page>

  datatype St = St(pages: Pages, free: seq<nat>, node: map<Key, nat>, leaf: map<Where, nat>, own: map<nat, Owner>)

  function Root(r: nat): Key {
    Key(r, 2, 0)
  }

  function Child(k: Key, idx: nat): Key
    requires k.level > 0
  {
    Key(k.root, k.level - 1, k.pre * PTES + idx)
  }

  function Parent(k: Key): Key {
    Key(k.root, k.level + 1, k.pre / PTES)
  }

  /** The slot that points to table k. */
  function ParentSlot(k: Key): Slot {
    Slot(Parent(k), k.pre % PTES)
  }

  /** The table and slot for a virtual page. */
  function LeafKey(x: Where): Key {
    Key(x.root, 0, x.vpn / PTES)
  }

  function LeafSlot(x: Where): Slot {
    Slot(LeafKey(x), x.vpn % PTES)
  }

  function Entry(pages: Pages, pg: nat, idx: nat): nat {
    if pg in pages && pages[pg].Table? && idx < |pages[pg].ptes| then pages[pg].ptes[idx] else 0
  }

  function Zeroes(): seq<nat> {
    seq(PTES, _ => 0)
  }

  // ----- the invariant, one clause per table, slot, user page and physical page -----

  predicate KeyAt(s: St, k: Key) {
    k in s.node ==>
      && k.level <= 2
      && s.node[k] in s.pages && s.node[k] in s.own && s.own[s.node[k]] == Node(k)
      && s.pages[s.node[k]].Table? && |s.pages[s.node[k]].ptes| == PTES
      && (k.level == 2 ==> k.pre == 0 && s.node[k] == k.root)
      && (k.level < 2 ==> Parent(k) in s.node)
  }

  /** A slot above level 0 points to the child table if there is one and is zero if not. */
  predicate SlotAt(s: St, k: Key, idx: nat) {
    k in s.node && idx < PTES ==>
      if k.level > 0 then
        Entry(s.pages, s.node[k], idx) == if Child(k, idx) in s.node then Pte(s.node[Child(k, idx)], V) else 0
      else
        LeafOk(s.leaf, Where(k.root, k.pre * PTES + idx), Entry(s.pages, s.node[k], idx))
  }

  /** An entry of level 0 is zero or maps a page; user memory is mapped just where it
      belongs, and nothing else is accessible to user code. */
  predicate LeafOk(leaf: map<Where, nat>, x: Where, e: nat) {
    && (!Valid(e) ==> e == 0)
    && (Valid(e) ==> MapsPage(e))
    && (Valid(e) && Bit(e, U) ==> x in leaf)
    && (x in leaf ==> Valid(e) && Ppn(e) == leaf[x])
  }

  predicate UserAt(s: St, x: Where) {
    x in s.leaf ==>
      && LeafKey(x) in s.node
      && s.leaf[x] in s.pages && s.leaf[x] in s.own && s.own[s.leaf[x]] == User(x)
      && s.pages[s.leaf[x]].Data? && |s.pages[s.leaf[x]].bytes| == PGSIZE
  }

  predicate PageAt(s: St, pg: nat) {
    && (pg in s.pages <==> pg in s.own)
    && (pg in s.pages ==> match s.own[pg]
                          case Free => pg in s.free
                          case Node(k) => k in s.node && s.node[k] == pg
                          case User(x) => x in s.leaf && s.leaf[x] == pg
                          case Other => true)
    && (pg in s.free ==> pg in s.own && s.own[pg] == Free)
  }

  /** The invariant, but for the slots of `ex`, which are being worked on. */
  ghost predicate Wf(s: St, ex: set<Slot>) {
    && (forall k {:trigger KeyAt(s, k)} :: KeyAt(s, k))
    && (forall k, idx: nat {:trigger SlotAt(s, k, idx)} :: Slot(k, idx) in ex || SlotAt(s, k, idx))
    && (forall x {:trigger UserAt(s, x)} :: UserAt(s, x))
    && (forall pg: nat {:trigger PageAt(s, pg)} :: PageAt(s, pg))
    && (forall i, j :: 0 <= i < j < |s.free| ==> s.free[i] != s.free[j])
  }

  // ----- translations -----

  /** The entry for virtual page v in the address space r: zero if there is none. */
  function Flat(s: St, r: nat, v: nat): nat {
    if Key(r, 0, v / PTES) in s.node then Entry(s.pages, s.node[Key(r, 0, v / PTES)], v % PTES) else 0
  }

  /** No translation of any address space differs. */
  ghost predicate SameFlat(s: St, s': St) {
    forall r: nat, v: nat :: Flat(s', r, v) == Flat(s, r, v)
  }

  /** Only one translation differs. */
  ghost predicate FlatSet(s: St, s': St, x: Where, e: nat) {
    forall r: nat, v: nat :: Flat(s', r, v) == if r == x.root && v == x.vpn then e else Flat(s, r, v)
  }

  lemma FlatOk(s: St, r: nat, v: nat)
    requires Wf(s, {})
    ensures LeafOk(s.leaf, Where(r, v), Flat(s, r, v))
  {
    var k := Key(r, 0, v / PTES);
    assert SlotAt(s, k, v % PTES);
    assert k.pre * PTES + v % PTES == v;
    assert UserAt(s, Where(r, v));
  }

  /** What user code can reach through its table: pages of its own user memory only. */
  lemma UserReach(s: St, r: nat, v: nat)
    requires Wf(s, {}) && Valid(Flat(s, r, v)) && Bit(Flat(s, r, v), U)
    ensures var pg := Ppn(Flat(s, r, v));
            pg in s.pages && pg in s.own && s.own[pg] == User(Where(r, v)) && s.pages[pg].Data?
              && |s.pages[pg].bytes| == PGSIZE
  {
    FlatOk(s, r, v);
    assert UserAt(s, Where(r, v));
  }

  // ----- the changes the kernel makes -----

  const JUNK_FREE: bv8 := 1
  const JUNK_NEW: bv8 := 5

  function Filled(b: bv8): (bytes: seq<bv8>)
    ensures |bytes| == PGSIZE
  {
    seq(PGSIZE, _ => b)
  }

  /** kalloc: the first free page comes into the caller's hands. */
  function Alloc(s: St): St
    requires s.free != []
  {
    s.(pages := s.pages[s.free[0] := Data(Filled(JUNK_NEW))], free := s.free[1..], own := s.own[s.free[0] := Other])
  }

  lemma AllocWf(s: St, ex: set<Slot>)
    requires Wf(s, ex) && s.free != []
    ensures Wf(Alloc(s), ex) && SameFlat(s, Alloc(s))
    ensures s.free[0] in s.own && s.own[s.free[0]] == Free && s.free[0] in s.pages
  {
    hide Filled;
    var c, s' := s.free[0], Alloc(s);
    assert PageAt(s, c);
    forall k ensures KeyAt(s', k) { assert KeyAt(s, k); }
    forall k, idx: nat ensures Slot(k, idx) in ex || SlotAt(s', k, idx) {
      assert KeyAt(s, k);
      assert Slot(k, idx) in ex || SlotAt(s, k, idx);
    }
    forall x ensures UserAt(s', x) { assert UserAt(s, x); }
    forall pg: nat ensures PageAt(s', pg) { assert PageAt(s, pg); assert pg in s.free <==> pg == c || pg in s'.free; }
    forall r: nat, v: nat ensures Flat(s', r, v) == Flat(s, r, v) { assert KeyAt(s, Key(r, 0, v / PTES)); }
  }

  /** kfree: a page in the caller's hands goes to the front of the free list. */
  function Release(s: St, c: nat): St {
    s.(pages := s.pages[c := Data(Filled(JUNK_FREE))], free := [c] + s.free, own := s.own[c := Free])
  }

  lemma ReleaseWf(s: St, ex: set<Slot>, c: nat)
    requires Wf(s, ex) && c in s.own && s.own[c] == Other
    ensures Wf(Release(s, c), ex) && SameFlat(s, Release(s, c)) && c in s.pages
  {
    hide Filled;
    var s' := Release(s, c);
    assert PageAt(s, c);
    forall k ensures KeyAt(s', k) { assert KeyAt(s, k); }
    forall k, idx: nat ensures Slot(k, idx) in ex || SlotAt(s', k, idx) {
      assert KeyAt(s, k);
      assert Slot(k, idx) in ex || SlotAt(s, k, idx);
    }
    forall x ensures UserAt(s', x) { assert UserAt(s, x); }
    forall pg: nat ensures PageAt(s', pg) { assert PageAt(s, pg); }
    forall r: nat, v: nat ensures Flat(s', r, v) == Flat(s, r, v) { assert KeyAt(s, Key(r, 0, v / PTES)); }
  }

  /** A page in the caller's hands becomes an empty table below slot idx of table k. */
  function Link(s: St, k: Key, idx: nat, c: nat): St
    requires k in s.node && k.level > 0 && s.node[k] in s.pages && s.pages[s.node[k]].Table?
             && idx < |s.pages[s.node[k]].ptes|
  {
    s.(pages := SetSlot(s.pages[c := Table(Zeroes())], s.node[k], idx, Pte(c, V)),
       node := s.node[Child(k, idx) := c],
       own := s.own[c := Node(Child(k, idx))])
  }

  /** Writing one slot of a table page. */
  function SetSlot(pages: Pages, pg: nat, idx: nat, e: nat): Pages {
    if pg in pages && pages[pg].Table? && idx < |pages[pg].ptes|
      then pages[pg := Table(pages[pg].ptes[idx := e])] else pages
  }

  lemma EntryAfter(pages: Pages, pg: nat, idx: nat, e: nat, pg': nat, idx': nat)
    requires pg in pages && pages[pg].Table? && idx < |pages[pg].ptes|
    ensures Entry(SetSlot(pages, pg, idx, e), pg', idx') == if pg' == pg && idx' == idx
            then e else Entry(pages, pg', idx')
  {
  }

  lemma ChildParent(k: Key, idx: nat, j: Key, i: nat)
    requires k.level > 0 && j.level > 0 && idx < PTES && i < PTES
    ensures Parent(Child(k, idx)) == k && Child(k, idx).pre % PTES == idx
    ensures Child(k, idx) == Child(j, i) <==> k == j && idx == i
  {
  }

  lemma LinkWf(s: St, k: Key, idx: nat, c: nat)
    requires Wf(s, {}) && k in s.node && k.level > 0 && idx < PTES
    requires KeyAt(s, k) && Child(k, idx) !in s.node && c in s.own && s.own[c] == Other
    ensures Wf(Link(s, k, idx, c), {}) && SameFlat(s, Link(s, k, idx, c))
  {
    var s', kid := Link(s, k, idx, c), Child(k, idx);
    assert PageAt(s, c);
    ChildParent(k, idx, k, idx);
    forall j ensures KeyAt(s', j) { assert KeyAt(s, j); }
    forall j, i: nat ensures SlotAt(s', j, i) { LinkSlot(s, k, idx, c, j, i); }
    forall x ensures UserAt(s', x) { assert UserAt(s, x); }
    forall pg: nat ensures PageAt(s', pg) { assert PageAt(s, pg); }
    forall r: nat, v: nat ensures Flat(s', r, v) == Flat(s, r, v) {
      assert KeyAt(s, Key(r, 0, v / PTES));
      EntryAfter(s.pages[c := Table(Zeroes())], s.node[k], idx, Pte(c, V), c, v % PTES);
    }
  }

  lemma LinkSlot(s: St, k: Key, idx: nat, c: nat, j: Key, i: nat)
    requires Wf(s, {}) && k in s.node && k.level > 0 && idx < PTES
    requires KeyAt(s, k) && Child(k, idx) !in s.node && c in s.own && s.own[c] == Other
    ensures SlotAt(Link(s, k, idx, c), j, i)
  {
    var kid := Child(k, idx);
    assert KeyAt(s, j) && SlotAt(s, j, i) && PageAt(s, c);
    if j in s.node && i < PTES {
      EntryAfter(s.pages[c := Table(Zeroes())], s.node[k], idx, Pte(c, V), s.node[j], i);
      if j.level > 0 {
        ChildParent(k, idx, j, i);
      }
    } else if j == kid && i < PTES {
      if j.level > 0 {
        assert KeyAt(s, Child(j, i));
        ChildParent(j, i, j, i);
      } else {
        assert UserAt(s, Where(j.root, j.pre * PTES + i));
        assert (j.pre * PTES + i) / PTES == j.pre;
      }
    }
  }

  /** A page in the caller's hands becomes the root table of a new address space. */
  function NewRoot(s: St, c: nat): St {
    s.(pages := s.pages[c := Table(Zeroes())], node := s.node[Root(c) := c], own := s.own[c := Node(Root(c))])
  }

  lemma NewRootWf(s: St, c: nat)
    requires Wf(s, {}) && c in s.own && s.own[c] == Other
    ensures Wf(NewRoot(s, c), {}) && SameFlat(s, NewRoot(s, c)) && Root(c) !in s.node
    ensures forall v: nat :: Flat(s, c, v) == 0
  {
    var s' := NewRoot(s, c);
    assert PageAt(s, c) && KeyAt(s, Root(c));
    forall j: Key | j.root == c ensures j !in s.node { NoTables(s, {}, c, j); }
    forall j ensures KeyAt(s', j) { assert KeyAt(s, j); }
    forall j, i: nat ensures SlotAt(s', j, i) { assert KeyAt(s, j) && SlotAt(s, j, i); }
    forall x ensures UserAt(s', x) { assert UserAt(s, x); }
    forall pg: nat ensures PageAt(s', pg) { assert PageAt(s, pg); }
    forall r: nat, v: nat ensures Flat(s', r, v) == Flat(s, r, v) { assert KeyAt(s, Key(r, 0, v / PTES)); }
  }

  /** Without its root table, an address space has no tables. */
  lemma NoTables(s: St, ex: set<Slot>, r: nat, j: Key)
    requires Wf(s, ex) && Root(r) !in s.node && j.root == r
    ensures j !in s.node
    decreases 2 - j.level
  {
    assert KeyAt(s, j);
    if j in s.node && j.level < 2 {
      NoTables(s, ex, r, Parent(j));
    }
  }

  /** Writing the entry for x, which was empty; if `mine`, the page becomes user memory. */
  function Map(s: St, x: Where, e: nat, mine: bool): St
    requires LeafKey(x) in s.node
  {
    var pages := SetSlot(s.pages, s.node[LeafKey(x)], x.vpn % PTES, e);
    if mine then s.(pages := pages, leaf := s.leaf[x := Ppn(e)], own := s.own[Ppn(e) := User(x)])
                 else s.(pages := pages)
  }

  ghost predicate CanMap(s: St, x: Where, e: nat, mine: bool) {
    && LeafKey(x) in s.node && Flat(s, x.root, x.vpn) == 0
    && Valid(e) && MapsPage(e)
    && (if mine then
          Ppn(e) in s.own && s.own[Ppn(e)] == Other && Ppn(e) in s.pages && s.pages[Ppn(e)].Data?
            && |s.pages[Ppn(e)].bytes| == PGSIZE
        else !Bit(e, U))
  }

  lemma SlotOf(x: Where, k: Key, idx: nat)
    requires k.level == 0 && idx < PTES
    ensures Slot(k, idx) == LeafSlot(x) <==> Where(k.root, k.pre * PTES + idx) == x
    ensures LeafKey(Where(k.root, k.pre * PTES + idx)) == k
  {
  }

  lemma MapWf(s: St, x: Where, e: nat, mine: bool)
    requires Wf(s, {}) && CanMap(s, x, e, mine)
    ensures Wf(Map(s, x, e, mine), {}) && FlatSet(s, Map(s, x, e, mine), x, e)
  {
    hide Valid, MapsPage, Bit, Ppn;
    var s', k, i := Map(s, x, e, mine), LeafKey(x), x.vpn % PTES;
    assert KeyAt(s, k) && UserAt(s, x);
    FlatOk(s, x.root, x.vpn);
    ZeroInvalid();
    forall j ensures KeyAt(s', j) { assert KeyAt(s, j); }
    forall j, i': nat ensures SlotAt(s', j, i') {
      assert KeyAt(s, j) && SlotAt(s, j, i');
      if j in s.node && i' < PTES {
        EntryAfter(s.pages, s.node[k], i, e, s.node[j], i');
        if j.level == 0 { SlotOf(x, j, i'); }
      }
    }
    forall y ensures UserAt(s', y) { assert UserAt(s, y); }
    forall pg: nat ensures PageAt(s', pg) { assert PageAt(s, pg); }
    SetFlat(s, s', x, e);
  }

  lemma ZeroInvalid()
    ensures !Valid(0)
  {
  }

  lemma SetFlat(s: St, s': St, x: Where, e: nat)
    requires LeafKey(x) in s.node && s'.node == s.node
    requires forall k {:trigger KeyAt(s, k)} :: KeyAt(s, k)
    requires s'.pages == SetSlot(s.pages, s.node[LeafKey(x)], x.vpn % PTES, e)
    ensures FlatSet(s, s', x, e)
  {
    forall r: nat, v: nat ensures Flat(s', r, v) == if r == x.root && v == x.vpn then e else Flat(s, r, v) {
      var j := Key(r, 0, v / PTES);
      assert KeyAt(s, j) && KeyAt(s, LeafKey(x));
      SlotOf(x, j, v % PTES);
      assert j.pre * PTES + v % PTES == v;
      if j in s.node {
        EntryAfter(s.pages, s.node[LeafKey(x)], x.vpn % PTES, e, s.node[j], v % PTES);
      }
    }
  }

  /** User memory comes into the caller's hands; its entry is still to be cleared. */
  function Disown(s: St, x: Where): St {
    if x in s.leaf then s.(leaf := s.leaf - {x}, own := s.own[s.leaf[x] := Other]) else s
  }

  lemma DisownWf(s: St, x: Where)
    requires Wf(s, {})
    ensures Wf(Disown(s, x), {LeafSlot(x)}) && SameFlat(s, Disown(s, x))
  {
    hide Valid, MapsPage, Bit, Ppn;
    var s' := Disown(s, x);
    assert UserAt(s, x);
    forall j ensures KeyAt(s', j) { assert KeyAt(s, j); }
    forall j, i: nat ensures Slot(j, i) == LeafSlot(x) || SlotAt(s', j, i) {
      assert SlotAt(s, j, i);
      if j.level == 0 && i < PTES { SlotOf(x, j, i); }
    }
    forall y ensures UserAt(s', y) { assert UserAt(s, y); }
    forall pg: nat ensures PageAt(s', pg) { assert PageAt(s, pg); }
  }

  /** Clearing a slot that has nothing below it. */
  function Clear(s: St, k: Key, idx: nat): St
    requires k in s.node
  {
    s.(pages := SetSlot(s.pages, s.node[k], idx, 0))
  }

  lemma ClearWf(s: St, k: Key, idx: nat)
    requires Wf(s, {Slot(k, idx)}) && k in s.node && idx < PTES
    requires if k.level > 0 then Child(k, idx) !in s.node else Where(k.root, k.pre * PTES + idx) !in s.leaf
    ensures Wf(Clear(s, k, idx), {})
    ensures if k.level > 0 then SameFlat(s, Clear(s, k, idx))
                                else FlatSet(s, Clear(s, k, idx), Where(k.root, k.pre * PTES + idx), 0)
  {
    hide Valid, MapsPage, Bit, Ppn;
    var s' := Clear(s, k, idx);
    assert KeyAt(s, k);
    ZeroInvalid();
    forall j ensures KeyAt(s', j) { assert KeyAt(s, j); }
    forall j, i: nat ensures SlotAt(s', j, i) {
      assert KeyAt(s, j) && (Slot(j, i) == Slot(k, idx) || SlotAt(s, j, i));
      if j in s.node { EntryAfter(s.pages, s.node[k], idx, 0, s.node[j], i); }
    }
    forall y ensures UserAt(s', y) { assert UserAt(s, y); }
    forall pg: nat ensures PageAt(s', pg) { assert PageAt(s, pg); }
    ClearFlat(s, k, idx);
  }

  lemma ClearFlat(s: St, k: Key, idx: nat)
    requires k in s.node && idx < PTES
    requires forall k {:trigger KeyAt(s, k)} :: KeyAt(s, k)
    ensures if k.level > 0 then SameFlat(s, Clear(s, k, idx))
                                else FlatSet(s, Clear(s, k, idx), Where(k.root, k.pre * PTES + idx), 0)
  {
    assert KeyAt(s, k);
    if k.level > 0 {
      forall r: nat, v: nat ensures Flat(Clear(s, k, idx), r, v) == Flat(s, r, v) {
        var j := Key(r, 0, v / PTES);
        assert KeyAt(s, j);
        if j in s.node { EntryAfter(s.pages, s.node[k], idx, 0, s.node[j], v % PTES); }
      }
    } else {
      var x := Where(k.root, k.pre * PTES + idx);
      SlotOf(x, k, idx);
      SetFlat(s, Clear(s, k, idx), x, 0);
    }
  }

  /** An empty table comes into the caller's hands; the slot that points to it is still to be cleared. */
  function Drop(s: St, k: Key): St
    requires k in s.node
  {
    s.(node := s.node - {k}, own := s.own[s.node[k] := Other])
  }

  lemma DropWf(s: St, k: Key)
    requires Wf(s, {}) && k in s.node
    requires forall i :: 0 <= i < PTES ==> Entry(s.pages, s.node[k], i) == 0
    ensures Wf(Drop(s, k), {ParentSlot(k)}) && SameFlat(s, Drop(s, k))
  {
    hide Valid, MapsPage, Bit, Ppn;
    var s' := Drop(s, k);
    assert KeyAt(s, k);
    ZeroInvalid();
    forall j ensures KeyAt(s', j) {
      assert KeyAt(s, j);
      if j in s.node && Parent(j) == k { NoChild(s, k, j); }
    }
    forall j, i: nat ensures Slot(j, i) == ParentSlot(k) || SlotAt(s', j, i) {
      assert SlotAt(s, j, i);
      if j.level > 0 && i < PTES { ChildParent(j, i, j, i); }
    }
    forall y ensures UserAt(s', y) {
      assert UserAt(s, y);
      if y in s.leaf && LeafKey(y) == k { assert SlotAt(s, k, y.vpn % PTES); SlotOf(y, k, y.vpn % PTES); }
    }
    forall pg: nat ensures PageAt(s', pg) { assert PageAt(s, pg); }
  }

  lemma NoChild(s: St, k: Key, j: Key)
    requires Wf(s, {}) && k in s.node && Parent(j) == k
    requires Entry(s.pages, s.node[k], j.pre % PTES) == 0
    ensures j !in s.node
  {
    assert SlotAt(s, k, j.pre % PTES);
    assert Child(k, j.pre % PTES) == j;
  }

  /** A root has no slot that points to it. */
  lemma RootSlot(s: St, k: Key)
    requires Wf(s, {ParentSlot(k)}) && k.level == 2
    ensures Wf(s, {})
  {
    forall j, i: nat ensures SlotAt(s, j, i) { assert KeyAt(s, j) && (Slot(j, i) == ParentSlot(k) || SlotAt(s, j, i)); }
  }

  /** New contents for a page of user memory or a page in the caller's hands. */
  function Store(s: St, c: nat, bytes: seq<bv8>): St {
    s.(pages := s.pages[c := Data(bytes)])
  }

  lemma StoreWf(s: St, c: nat, bytes: seq<bv8>)
    requires Wf(s, {}) && c in s.own && (s.own[c].User? || s.own[c].Other?) && |bytes| == PGSIZE
    ensures Wf(Store(s, c, bytes), {}) && SameFlat(s, Store(s, c, bytes)) && c in s.pages
  {
    var s' := Store(s, c, bytes);
    assert PageAt(s, c);
    forall j ensures KeyAt(s', j) { assert KeyAt(s, j); }
    forall j, i: nat ensures SlotAt(s', j, i) { assert KeyAt(s, j) && SlotAt(s, j, i); }
    forall y ensures UserAt(s', y) { assert UserAt(s, y); }
    forall pg: nat ensures PageAt(s', pg) { assert PageAt(s, pg); }
    forall r: nat, v: nat ensures Flat(s', r, v) == Flat(s, r, v) { assert KeyAt(s, Key(r, 0, v / PTES)); }
  }
}
