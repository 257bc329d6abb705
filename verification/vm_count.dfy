/**
 How many free pages the operations on page tables take: one for each page of
 memory, and one for each table that is missing on the way to it.
 */
module VmCount {
  import opened Sv39
  import opened VmSpec
  import Sets

  /** The tables below the root that lead to virtual page v. */
  function Path(r: nat, v: nat): set<Key> {
    {Key(r, 1, Prefix(v, 1)), Key(r, 0, Prefix(v, 0))}
  }

  /** The tables that lead to the n pages from v on. */
  function Paths(r: nat, v: nat, n: nat): set<Key> {
    if n == 0 then {} else Paths(r, v, n - 1) + Path(r, v + n - 1)
  }

  /** The tables on the way to those pages that do not exist. */
  ghost function Absent(s: St, r: nat, v: nat, n: nat): set<Key> {
    Lacking(s.node.Keys, r, v, n)
  }

  function Lacking(have: set<Key>, r: nat, v: nat, n: nat): set<Key> {
    Paths(r, v, n) - have
  }

  /** The tables on the way to the n pages from v on exist now; so many free pages were taken for them, and m others. */
  ghost predicate Spent(s: St, s': St, r: nat, v: nat, n: nat, m: nat) {
    s'.node.Keys == s.node.Keys + Paths(r, v, n) && |s'.free| + |Absent(s, r, v, n)| + m == |s.free|
  }

  /** There are not enough free pages for that. */
  ghost predicate Short(s: St, r: nat, v: nat, n: nat, m: nat) {
    |s.free| < |Absent(s, r, v, n)| + m
  }

  lemma PathsNext(r: nat, v: nat, n: nat)
    ensures Paths(r, v, n + 1) == Paths(r, v, n) + Path(r, v + n)
  {
    hide Path;
  }

  lemma OnePath(r: nat, v: nat)
    ensures Paths(r, v, 1) == Path(r, v)
  {
    hide Path;
    assert Paths(r, v, 0) == {};
  }

  lemma SpentNone(s: St, r: nat, v: nat)
    ensures Spent(s, s, r, v, 0, 0)
  {
    assert Absent(s, r, v, 0) == {};
  }

  lemma {:induction false} PathsGrow(r: nat, v: nat, n: nat, m: nat)
    requires n <= m
    ensures Paths(r, v, n) <= Paths(r, v, m)
  {
    if n < m { PathsGrow(r, v, n, m - 1); }
  }

  lemma LackingNext(have: set<Key>, r: nat, v: nat, n: nat)
    ensures |Lacking(have, r, v, n + 1)| == |Lacking(have, r, v, n)| + |Lacking(have + Paths(r, v, n), r, v + n, 1)|
  {
    hide Paths, Path;
    PathsNext(r, v, n);
    OnePath(r, v + n);
    Sets.AddedSize(have, Paths(r, v, n), Path(r, v + n));
  }

  lemma AbsentNext(a: St, b: St, r: nat, v: nat, n: nat)
    requires b.node.Keys == a.node.Keys + Paths(r, v, n)
    ensures |Absent(a, r, v, n + 1)| == |Absent(a, r, v, n)| + |Absent(b, r, v + n, 1)|
  {
    hide Paths, Path, Lacking;
    LackingNext(a.node.Keys, r, v, n);
  }

  lemma SpentMore(a: St, b: St, c: St, r: nat, v: nat, n: nat, m: nat, k: nat)
    requires Spent(a, b, r, v, n, m) && Spent(b, c, r, v + n, 1, k)
    ensures Spent(a, c, r, v, n + 1, m + k)
  {
    hide Paths, Path, Absent;
    OnePath(r, v + n);
    PathsNext(r, v, n);
    AbsentNext(a, b, r, v, n);
    assert a.node.Keys + Paths(r, v, n) + Path(r, v + n) == a.node.Keys + (Paths(r, v, n) + Path(r, v + n));
  }

  lemma ShortMore(a: St, b: St, r: nat, v: nat, n: nat, m: nat, k: nat, all: nat, more: nat)
    requires Spent(a, b, r, v, n, m) && Short(b, r, v + n, 1, k) && n < all && m + k <= more
    ensures Short(a, r, v, all, more)
  {
    hide Paths;
    AbsentNext(a, b, r, v, n);
    PathsGrow(r, v, n + 1, all);
    Sets.SubsetSize(Absent(a, r, v, n + 1), Absent(a, r, v, all));
  }

  /** A walk to v has added tables on the way, and taken a free page for each. */
  ghost predicate Walking(a: St, b: St, r: nat, v: nat) {
    && |b.free| + |b.node.Keys| == |a.free| + |a.node.Keys|
    && a.node.Keys <= b.node.Keys <= a.node.Keys + Path(r, v)
  }

  lemma WalkingLink(a: St, b: St, c: St, r: nat, v: nat, l: nat, pg: nat)
    requires Walking(a, b, r, v) && l < 2 && var k := Key(r, l, Prefix(v, l)); k !in b.node && c.node == b.node[k := pg]
    requires b.free != [] && c.free == b.free[1..]
    ensures Walking(a, c, r, v)
  {
    var k := Key(r, l, Prefix(v, l));
    assert c.node.Keys == b.node.Keys + {k};
  }

  /** It ends with the last table there, or with the free list. */
  lemma WalkSpent(a: St, b: St, r: nat, v: nat)
    requires Walking(a, b, r, v)
    ensures Path(r, v) <= b.node.Keys ==> Spent(a, b, r, v, 1, 0)
    ensures !(Path(r, v) <= b.node.Keys) && b.free == [] ==> Short(a, r, v, 1, 0)
  {
    hide Paths, Path;
    OnePath(r, v);
    var had, have, path := a.node.Keys, b.node.Keys, Path(r, v);
    Sets.AddedOnce(had, path);
    Sets.SubsetSize(have, had + path);
    if path <= have {
      assert have == had + path;
    }
  }

  /** No page takes more than three. */
  lemma ThreePerPage(s: St, r: nat, v: nat, n: nat)
    ensures |Absent(s, r, v, n)| + n <= 3 * n
  {
    TwoPerPage(s.node.Keys, r, v, n);
  }

  lemma {:induction false} TwoPerPage(have: set<Key>, r: nat, v: nat, n: nat)
    ensures |Lacking(have, r, v, n)| <= 2 * n
  {
    hide Paths, Path;
    if n > 0 {
      TwoPerPage(have, r, v, n - 1);
      LackingNext(have, r, v, n - 1);
      OnePath(r, v + n - 1);
      var path := Path(r, v + n - 1);
      Sets.SubsetSize(path - (have + Paths(r, v, n - 1)), path);
      PathSize(r, v + n - 1);
    } else {
      NoPaths(r, v);
    }
  }

  lemma NoPaths(r: nat, v: nat)
    ensures Paths(r, v, 0) == {}
  {
  }

  lemma PathSize(r: nat, v: nat)
    ensures |Path(r, v)| == 2
  {
  }
}
