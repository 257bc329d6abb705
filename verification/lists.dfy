/**
 The kernel's intrusive circular lists: list heads and elements are memory
 addresses, linked through `next` and `prev`. Several lists share one memory;
 an element is on at most one of them, so it can be unlinked without naming its list.
 */
module Lists {
  import opened Ring

  function Cycle(heads: seq<int>, lists: seq<seq<int>>, k: nat): seq<int>
    requires k < |heads| && k < |lists|
  {
    [heads[k]] + lists[k]
  }

  /** List k is a ring through its head, and all its nodes belong to it. */
  ghost predicate ListOk(next: Links, prev: Links, heads: seq<int>, lists: seq<seq<int>>, owner: map<int, nat>, k: nat)
    requires k < |heads| == |lists|
  {
    && IsRing(next, prev, Cycle(heads, lists, k))
    && forall i :: 0 <= i < |Cycle(heads, lists, k)| ==>
                   Cycle(heads, lists, k)[i] in owner && owner[Cycle(heads, lists, k)[i]] == k
  }

  ghost predicate AllOk(next: Links, prev: Links, heads: seq<int>, lists: seq<seq<int>>, owner: map<int, nat>) {
    && |heads| == |lists|
    && (forall k: nat {:trigger ListOk(next, prev, heads, lists, owner, k)} ::
       k < |heads| ==> ListOk(next, prev, heads, lists, owner, k))
    && (forall x :: x in owner ==> owner[x] < |heads| && x in Cycle(heads, lists, owner[x]))
  }

  lemma ListFrame(next: Links, prev: Links, next': Links, prev': Links, heads: seq<int>, lists: seq<seq<int>>,
                  lists': seq<seq<int>>,
                  owner: map<int, nat>, owner': map<int, nat>, k: nat)
    requires k < |heads| == |lists| == |lists'| && lists'[k] == lists[k]
    requires ListOk(next, prev, heads, lists, owner, k)
    requires forall x :: x in owner && owner[x] == k ==>
               x in owner' && owner'[x] == k && x in next' && x in prev' && (x in next ==> next'[x] == next[x])
                 && (x in prev ==> prev'[x] == prev[x])
    ensures ListOk(next', prev', heads, lists', owner', k)
  {
    var c := Cycle(heads, lists, k);
    assert c == Cycle(heads, lists', k);
    forall x | x in c
      ensures x in next && x in prev && x in next' && x in prev' && next'[x] == next[x] && prev'[x] == prev[x]
    {
      var i :| 0 <= i < |c| && c[i] == x;
      RingAt(next, prev, c, i);
    }
    RingFrame(next, prev, next', prev', c);
  }

  class ListHeap {
    var next: Links
    var prev: Links
    var heads: seq<int>
    ghost var lists: seq<seq<int>>
    ghost var owner: map<int, nat>

    ghost predicate Valid()
      reads this
    {
      AllOk(next, prev, heads, lists, owner)
    }

    constructor ()
      ensures Valid() && heads == [] && lists == [] && owner == map[]
    {
      next, prev, heads, lists, owner := map[], map[], [], [], map[];
    }

    /** lst_init, for the head of a further list. */
    method LstInit(h: int)
      requires Valid() && h !in owner
      modifies this
      ensures Valid() && heads == old(heads) + [h] && lists == old(lists) + [[]]
              && owner == old(owner)[h := |old(heads)|]
    {
      ghost var n := |heads|;
      next, prev := next[h := h], prev[h := h];
      heads, lists, owner := heads + [h], lists + [[]], owner[h := n];
      InitOk(old(next), old(prev), old(heads), old(lists), old(owner), h);
    }

    method LstEmpty(k: nat) returns (r: bool)
      requires Valid() && k < |heads|
      ensures r <==> lists[k] == []
    {
      assert ListOk(next, prev, heads, lists, owner, k);
      RingAt(next, prev, Cycle(heads, lists, k), 0);
      Different(Cycle(heads, lists, k), 0, if lists[k] == [] then 0 else 1);
      r := next[heads[k]] == heads[k];
    }

    method LstPush(k: nat, e: int)
      requires Valid() && k < |heads| && e !in owner
      modifies this
      ensures Valid() && heads == old(heads) && owner == old(owner)[e := k]
      ensures lists == old(lists)[k := [e] + old(lists)[k]]
    {
      hide AllOk, ListOk, IsRing;
      var h := heads[k];
      PushOk(next, prev, heads, lists, owner, k, e);
      prev := PushPrev(next, prev, h, e);
      next := PushNext(next, h, e);
      lists, owner := lists[k := [e] + lists[k]], owner[e := k];
    }

    /** lst_remove: unlink e, wherever on its list it is. */
    method LstRemove(e: int, ghost k: nat, ghost i: nat)
      requires Valid() && k < |heads| == |lists| && i < |lists[k]| && lists[k][i] == e
      modifies this
      ensures Valid() && heads == old(heads) && owner == old(owner) - {e}
      ensures lists == old(lists)[k := Without(old(lists)[k], i)]
    {
      hide AllOk, ListOk, IsRing, Without;
      RemoveOk(next, prev, heads, lists, owner, k, i);
      next, prev := UnlinkNext(next, prev, e), UnlinkPrev(next, prev, e);
      lists, owner := lists[k := Without(lists[k], i)], owner - {e};
    }

    /** lst_pop: the first element; the kernel panics on an empty list. */
    method LstPop(k: nat) returns (e: int)
      requires Valid() && k < |heads| == |lists| && lists[k] != []
      modifies this
      ensures Valid() && heads == old(heads) && owner == old(owner) - {e}
      ensures e == old(lists)[k][0] && lists == old(lists)[k := old(lists)[k][1..]]
    {
      FirstIs(next, prev, heads, lists, owner, k);
      e := next[heads[k]];
      assert Without(lists[k], 0) == lists[k][1..];
      LstRemove(e, k, 0);
    }
  }

  lemma FirstIs(next: Links, prev: Links, heads: seq<int>, lists: seq<seq<int>>, owner: map<int, nat>, k: nat)
    requires AllOk(next, prev, heads, lists, owner) && k < |heads| && lists[k] != []
    ensures heads[k] in next && next[heads[k]] == lists[k][0]
  {
    assert ListOk(next, prev, heads, lists, owner, k);
    RingAt(next, prev, Cycle(heads, lists, k), 0);
  }

  lemma InitOk(next: Links, prev: Links, heads: seq<int>, lists: seq<seq<int>>, owner: map<int, nat>, h: int)
    requires AllOk(next, prev, heads, lists, owner) && h !in owner
    ensures AllOk(next[h := h], prev[h := h], heads + [h], lists + [[]], owner[h := |heads|])
  {
    var next', prev', heads', lists', owner' := next[h := h], prev[h := h], heads + [h], lists + [[]],
      owner[h := |heads|];
    forall l: nat | l < |heads'| ensures ListOk(next', prev', heads', lists', owner', l) {
      if l < |heads| {
        assert ListOk(next, prev, heads, lists, owner, l);
        assert Cycle(heads', lists', l) == Cycle(heads, lists, l);
        RingFrame(next, prev, next', prev', Cycle(heads, lists, l));
      }
    }
    forall x | x in owner' ensures owner'[x] < |heads'| && x in Cycle(heads', lists', owner'[x]) {
      if x in owner && x != h { assert Cycle(heads', lists', owner[x]) == Cycle(heads, lists, owner[x]); }
    }
  }

  lemma NodesLinked(next: Links, prev: Links, heads: seq<int>, lists: seq<seq<int>>, owner: map<int, nat>, x: int)
    requires AllOk(next, prev, heads, lists, owner) && x in owner
    ensures x in next && x in prev
  {
    var k := owner[x];
    assert ListOk(next, prev, heads, lists, owner, k);
    var c := Cycle(heads, lists, k);
    var i :| 0 <= i < |c| && c[i] == x;
    RingAt(next, prev, c, i);
  }

  /** A change confined to the nodes of list k keeps all lists in order if it keeps list k so. */
  lemma OneListChanged(next: Links, prev: Links, next': Links, prev': Links, heads: seq<int>, lists: seq<seq<int>>,
                       lists': seq<seq<int>>,
                       owner: map<int, nat>, owner': map<int, nat>, k: nat)
    requires AllOk(next, prev, heads, lists, owner) && k < |heads| && |lists'| == |lists|
    requires forall l :: 0 <= l < |lists| && l != k ==> lists'[l] == lists[l]
    requires forall x :: x in owner && owner[x] != k ==>
               x in owner' && owner'[x] == owner[x] && x in next' && x in prev' && (x in next ==> next'[x] == next[x])
                 && (x in prev ==> prev'[x] == prev[x])
    requires forall x :: x in owner' ==> if owner'[x] == k then x in Cycle(heads, lists', k)
                                                                else x in owner && owner[x] == owner'[x]
    requires ListOk(next', prev', heads, lists', owner', k)
    ensures AllOk(next', prev', heads, lists', owner')
  {
    forall l: nat | l < |heads| ensures ListOk(next', prev', heads, lists', owner', l) {
      if l != k {
        assert ListOk(next, prev, heads, lists, owner, l);
        ListFrame(next, prev, next', prev', heads, lists, lists', owner, owner', l);
      }
    }
    forall x | x in owner' ensures owner'[x] < |heads| && x in Cycle(heads, lists', owner'[x]) {
      if owner'[x] != k { assert Cycle(heads, lists', owner[x]) == Cycle(heads, lists, owner[x]); }
    }
  }

  lemma OwnsCycle(next: Links, prev: Links, heads: seq<int>, lists: seq<seq<int>>, owner: map<int, nat>, k: nat)
    requires AllOk(next, prev, heads, lists, owner) && k < |heads|
    ensures |heads| == |lists| && IsRing(next, prev, Cycle(heads, lists, k))
    ensures forall i :: 0 <= i < |Cycle(heads, lists, k)| ==>
                        Cycle(heads, lists, k)[i] in owner && owner[Cycle(heads, lists, k)[i]] == k
    ensures forall x :: x in owner && owner[x] == k ==> x in Cycle(heads, lists, k)
    ensures forall x :: x in owner ==> x in next && x in prev
  {
    assert ListOk(next, prev, heads, lists, owner, k);
    forall x | x in owner ensures x in next && x in prev { NodesLinked(next, prev, heads, lists, owner, x); }
  }

  lemma PushOk(next: Links, prev: Links, heads: seq<int>, lists: seq<seq<int>>, owner: map<int, nat>, k: nat, e: int)
    requires AllOk(next, prev, heads, lists, owner) && k < |heads| && e !in owner
    ensures |heads| == |lists| && heads[k] in next
    ensures AllOk(PushNext(next, heads[k], e), PushPrev(next, prev, heads[k], e), heads, lists[k := [e] + lists[k]],
            owner[e := k])
  {
    hide AllOk, IsRing;
    OwnsCycle(next, prev, heads, lists, owner, k);
    var h, c := heads[k], Cycle(heads, lists, k);
    RingAt(next, prev, c, 0);
    var next', prev', lists', owner' := PushNext(next, h, e), PushPrev(next, prev, h, e), lists[k := [e] + lists[k]],
      owner[e := k];
    assert e !in c;
    PushRing(next, prev, c, e);
    assert PushedFront(c, e) == Cycle(heads, lists', k);
    MembersOwned(c, e, owner, k);
    forall x | x in owner' && owner'[x] == k ensures x in Cycle(heads, lists', k) { PushedMembers(c, e, x); }
    assert owner[h] == k && next[h] in owner && owner[next[h]] == k;
    OneListChanged(next, prev, next', prev', heads, lists, lists', owner, owner', k);
  }

  lemma PushedMembers(c: seq<int>, e: int, x: int)
    requires |c| > 0
    ensures x in PushedFront(c, e) <==> x in c || x == e
  {
    assert c == [c[0]] + c[1..];
  }

  lemma MembersOwned(c: seq<int>, e: int, owner: map<int, nat>, k: nat)
    requires |c| > 0 && forall i :: 0 <= i < |c| ==> c[i] in owner && owner[c[i]] == k
    ensures forall i :: 0 <= i < |PushedFront(c, e)| ==>
                        PushedFront(c, e)[i] in owner[e := k] && owner[e := k][PushedFront(c, e)[i]] == k
  {
    forall i | 0 <= i < |PushedFront(c, e)|
      ensures PushedFront(c, e)[i] in owner[e := k] && owner[e := k][PushedFront(c, e)[i]] == k
    {
      PushedMembers(c, e, PushedFront(c, e)[i]);
    }
  }

  lemma RemoveOk(next: Links, prev: Links, heads: seq<int>, lists: seq<seq<int>>, owner: map<int, nat>, k: nat, i: nat)
    requires AllOk(next, prev, heads, lists, owner) && k < |heads| && i < |lists[k]|
    ensures |heads| == |lists| && lists[k][i] in next && lists[k][i] in prev
    ensures AllOk(UnlinkNext(next, prev, lists[k][i]), UnlinkPrev(next, prev, lists[k][i]), heads,
                  lists[k := Without(lists[k], i)], owner - {lists[k][i]})
  {
    hide AllOk, IsRing, Distinct, Without;
    OwnsCycle(next, prev, heads, lists, owner, k);
    var e, c := lists[k][i], Cycle(heads, lists, k);
    assert c[i + 1] == e;
    RingAt(next, prev, c, i + 1);
    UnlinkRing(next, prev, c, i + 1);
    RingDistinct(next, prev, c);
    DistinctWithout(c, i + 1);
    var next', prev', lists', owner' := UnlinkNext(next, prev, e), UnlinkPrev(next, prev, e),
      lists[k := Without(lists[k], i)], owner - {e};
    WithoutCons(heads[k], lists[k], i);
    assert next[e] in owner && owner[next[e]] == k && prev[e] in owner && owner[prev[e]] == k && owner[e] == k;
    WithoutOwned(c, i + 1, owner, k);
    OneListChanged(next, prev, next', prev', heads, lists, lists', owner, owner', k);
  }

  lemma WithoutCons(h: int, l: seq<int>, i: nat)
    requires i < |l|
    ensures Without([h] + l, i + 1) == [h] + Without(l, i)
  {
  }

  lemma RingDistinct(next: Links, prev: Links, c: seq<int>)
    requires IsRing(next, prev, c)
    ensures Distinct(c)
  {
  }

  lemma WithoutOwned(c: seq<int>, i: nat, owner: map<int, nat>, k: nat)
    requires i < |c| && Distinct(c) && forall j :: 0 <= j < |c| ==> c[j] in owner && owner[c[j]] == k
    ensures var w, o := Without(c, i), owner - {c[i]};
            forall j :: 0 <= j < |w| ==> w[j] in o && o[w[j]] == k
  {
    DistinctWithout(c, i);
    forall j | 0 <= j < |Without(c, i)| ensures Without(c, i)[j] in owner - {c[i]}
      && (owner - {c[i]})[Without(c, i)[j]] == k {
      WithoutAt(c, i, j);
    }
  }
}
