/**
 Circular doubly linked lists, as the kernel writes them: every node, and the
 list head itself, has a `next` and a `prev` pointer. Both the LRU list of the
 buffer cache and the free lists of the buddy allocator are rings of this kind.
 Pointers are fields of nodes, so a set of nodes is modelled by two maps keyed
 by node address. A ring is described by the sequence of its nodes, head first.
 */
module Ring {

  type Links = map<int, int>

  /** The node after position i of the cycle, and the one before it. */
  function After(c: seq<int>, i: nat): int
    requires i < |c|
  {
    if i + 1 == |c| then c[0] else c[i + 1]
  }

  function Before(c: seq<int>, i: nat): int
    requires i < |c|
  {
    if i == 0 then c[|c| - 1] else c[i - 1]
  }

  ghost predicate Distinct(c: seq<int>) {
    forall i, j :: 0 <= i < j < |c| ==> c[i] != c[j]
  }

  /** The nodes of c, in this order, form one closed cycle through both pointer fields. */
  ghost predicate IsRing(next: Links, prev: Links, c: seq<int>) {
    && |c| > 0
    && Distinct(c)
    && (forall i :: 0 <= i < |c| ==> c[i] in next && c[i] in prev)
    && (forall i :: 0 <= i < |c| ==> next[c[i]] == After(c, i))
    && (forall i :: 0 <= i < |c| ==> prev[c[i]] == Before(c, i))
  }

  function Without(c: seq<int>, i: nat): seq<int>
    requires i < |c|
  {
    c[..i] + c[i + 1..]
  }

  function PushedFront(c: seq<int>, e: int): seq<int>
    requires |c| > 0
  {
    [c[0], e] + c[1..]
  }

  /** The two pointer writes that unlink node e, and the four that insert it after head h. */
  function UnlinkNext(next: Links, prev: Links, e: int): Links
    requires e in next && e in prev
  {
    next[prev[e] := next[e]]
  }

  function UnlinkPrev(next: Links, prev: Links, e: int): Links
    requires e in next && e in prev
  {
    prev[next[e] := prev[e]]
  }

  function PushNext(next: Links, h: int, e: int): Links
    requires h in next
  {
    next[e := next[h]][h := e]
  }

  function PushPrev(next: Links, prev: Links, h: int, e: int): Links
    requires h in next
  {
    prev[e := h][next[h] := e]
  }

  lemma DistinctWithout(c: seq<int>, i: nat)
    requires i < |c| && Distinct(c)
    ensures Distinct(Without(c, i)) && c[i] !in Without(c, i)
    ensures forall x :: x in c <==> x == c[i] || x in Without(c, i)
  {
    var w := Without(c, i);
    forall x | x in c ensures x == c[i] || x in w {
      var j :| 0 <= j < |c| && c[j] == x;
      if j < i { assert w[j] == x; } else if j > i { assert w[j - 1] == x; }
    }
    assert forall j :: 0 <= j < |w| ==> w[j] == (if j < i then c[j] else c[j + 1]);
  }

  lemma Different(c: seq<int>, i: nat, j: nat)
    requires Distinct(c) && i < |c| && j < |c|
    ensures c[i] == c[j] <==> i == j
  {
  }

  lemma RingAt(next: Links, prev: Links, c: seq<int>, i: nat)
    requires IsRing(next, prev, c) && i < |c|
    ensures c[i] in next && c[i] in prev && next[c[i]] == After(c, i) && prev[c[i]] == Before(c, i)
  {
  }

  /** Unlinking any node but the head leaves a ring of the other nodes, in the same order. */
  lemma UnlinkRing(next: Links, prev: Links, c: seq<int>, i: nat)
    requires IsRing(next, prev, c) && 0 < i < |c|
    ensures c[i] in next && c[i] in prev
    ensures IsRing(UnlinkNext(next, prev, c[i]), UnlinkPrev(next, prev, c[i]), Without(c, i))
    ensures c[i] !in Without(c, i)
  {
    var w := Without(c, i);
    DistinctWithout(c, i);
    RingAt(next, prev, c, i);
    var n', p' := UnlinkNext(next, prev, c[i]), UnlinkPrev(next, prev, c[i]);
    forall j | 0 <= j < |w|
      ensures w[j] in n' && w[j] in p' && n'[w[j]] == After(w, j) && p'[w[j]] == Before(w, j)
    {
      UnlinkAt(next, prev, c, i, j);
    }
  }

  lemma UnlinkAt(next: Links, prev: Links, c: seq<int>, i: nat, j: nat)
    requires IsRing(next, prev, c) && 0 < i < |c| && j < |c| - 1
    ensures c[i] in next && c[i] in prev
    ensures |Without(c, i)| == |c| - 1
    ensures var w := Without(c, i);
            var n', p' := UnlinkNext(next, prev, c[i]), UnlinkPrev(next, prev, c[i]);
            w[j] in n' && w[j] in p' && n'[w[j]] == After(w, j) && p'[w[j]] == Before(w, j)
  {
    var o := if j < i then j else j + 1;
    var a := if i + 1 == |c| then 0 else i + 1;
    RingAt(next, prev, c, i);
    RingAt(next, prev, c, o);
    Different(c, o, i - 1);
    Different(c, o, a);
    hide IsRing, Distinct, Without;
    UnlinkNextAt(next, prev, c, i, j, o);
    UnlinkPrevAt(next, prev, c, i, j, o, a);
  }

  lemma UnlinkNextAt(next: Links, prev: Links, c: seq<int>, i: nat, j: nat, o: nat)
    requires 0 < i < |c| && j < |c| - 1 && o == if j < i then j else j + 1
    requires c[i] in next && c[i] in prev && next[c[i]] == After(c, i) && prev[c[i]] == c[i - 1]
    requires c[o] in next && next[c[o]] == After(c, o) && (c[o] == c[i - 1] <==> o == i - 1)
    ensures |Without(c, i)| == |c| - 1
    ensures var w, n' := Without(c, i), UnlinkNext(next, prev, c[i]);
            w[j] in n' && n'[w[j]] == After(w, j)
  {
    WithoutAt(c, i, j);
    WithoutAt(c, i, if j == |c| - 2 then 0 else j + 1);
    hide Without;
  }

  lemma UnlinkPrevAt(next: Links, prev: Links, c: seq<int>, i: nat, j: nat, o: nat, a: nat)
    requires 0 < i < |c| && j < |c| - 1 && o == if j < i then j else j + 1
    requires a == if i + 1 == |c| then 0 else i + 1
    requires c[i] in next && c[i] in prev && next[c[i]] == c[a] && prev[c[i]] == c[i - 1]
    requires c[o] in prev && prev[c[o]] == Before(c, o) && (c[o] == c[a] <==> o == a)
    ensures |Without(c, i)| == |c| - 1
    ensures var w, p' := Without(c, i), UnlinkPrev(next, prev, c[i]);
            w[j] in p' && p'[w[j]] == Before(w, j)
  {
    WithoutAt(c, i, j);
    WithoutAt(c, i, if j == 0 then |c| - 2 else j - 1);
    hide Without;
  }

  lemma WithoutAt(c: seq<int>, i: nat, j: nat)
    requires i < |c| && j < |c| - 1
    ensures |Without(c, i)| == |c| - 1
    ensures Without(c, i)[j] == c[if j < i then j else j + 1]
  {
  }

  /** Inserting a node after the head gives the ring with that node in second place. */
  lemma PushRing(next: Links, prev: Links, c: seq<int>, e: int)
    requires IsRing(next, prev, c) && e !in c
    ensures IsRing(PushNext(next, c[0], e), PushPrev(next, prev, c[0], e), PushedFront(c, e))
  {
    var w := PushedFront(c, e);
    var n', p' := PushNext(next, c[0], e), PushPrev(next, prev, c[0], e);
    assert forall j :: 0 <= j < |w| ==> w[j] == (if j == 0 then c[0] else if j == 1 then e else c[j - 1]);
    forall j | 0 <= j < |w|
      ensures w[j] in n' && w[j] in p' && n'[w[j]] == After(w, j) && p'[w[j]] == Before(w, j)
    {
      PushAt(next, prev, c, e, j);
    }
  }

  lemma PushAt(next: Links, prev: Links, c: seq<int>, e: int, j: nat)
    requires IsRing(next, prev, c) && e !in c && j <= |c|
    ensures c[0] in next
    ensures var w := PushedFront(c, e);
            var n', p' := PushNext(next, c[0], e), PushPrev(next, prev, c[0], e);
            w[j] in n' && w[j] in p' && n'[w[j]] == After(w, j) && p'[w[j]] == Before(w, j)
  {
    var w := PushedFront(c, e);
    var after := if 1 == |c| then 0 else 1;
    RingAt(next, prev, c, 0);
    if j >= 2 {
      RingAt(next, prev, c, j - 1);
      Different(c, j - 1, 0);
      Different(c, j - 1, after);
    }
    Different(c, 0, after);
    hide IsRing, Distinct;
    assert w[j] == if j == 0 then c[0] else if j == 1 then e else c[j - 1];
  }

  /** Pointer writes to nodes outside a ring do not disturb it. */
  lemma RingFrame(next: Links, prev: Links, next': Links, prev': Links, c: seq<int>)
    requires IsRing(next, prev, c)
    requires forall x :: x in c ==> x in next' && x in prev' && next'[x] == next[x] && prev'[x] == prev[x]
    ensures IsRing(next', prev', c)
  {
  }
}
