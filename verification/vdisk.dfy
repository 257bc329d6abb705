/** The driver's side as the code of virtio_disk.c, proved against the steps of the virtqueue. */
module Vdisk {
  import opened Options
  import opened VdiskSpec
  import opened VdiskSteps

  function CountFree(free: seq<bool>): nat {
    if free == [] then 0 else CountFree(free[..|free| - 1]) + if free[|free| - 1] then 1 else 0
  }

  lemma {:induction false} CountUpdate(free: seq<bool>, i: nat)
    requires i < |free| && free[i]
    ensures CountFree(free) == CountFree(free[i := false]) + 1
  {
    var n := |free| - 1;
    if i < n {
      CountUpdate(free[..n], i);
      assert free[i := false][..n] == free[..n][i := false];
    } else {
      assert free[i := false][..n] == free[..n];
    }
  }

  lemma {:induction false} CountNone(free: seq<bool>)
    requires forall i :: 0 <= i < |free| ==> !free[i]
    ensures CountFree(free) == 0
  {
    if free != [] { CountNone(free[..|free| - 1]); }
  }

  class VirtioDisk {
    var desc: seq<Desc>
    var ops: seq<Op>
    var status: seq<int>
    var availRing: seq<nat>
    var avail: nat
    var usedRing: seq<nat>
    var used: nat
    var free: seq<bool>
    var info: seq<Option<nat>>
    var seen: nat
    var busy: set<nat>

    /** The state of driver and device together. */
    ghost var s: St

    ghost predicate Matches()
      reads this
    {
      && s.desc == desc && s.ops == ops && s.status == status && s.availRing == availRing && s.avail == avail
      && s.usedRing == usedRing && s.used == used && s.free == free && s.info == info && s.seen == seen
         && s.busy == busy
    }

    /** alloc_desc: the first free descriptor, marked as not free. */
    method AllocDesc() returns (d: int)
      requires |free| == NUM
      modifies this`free
      ensures d == -1 ==> free == old(free) && forall i :: 0 <= i < NUM ==> !free[i]
      ensures d != -1 ==> 0 <= d < NUM && old(free)[d] && free == old(free)[d := false] && forall i ::
                          0 <= i < d ==> !free[i]
    {
      for i := 0 to NUM
        invariant free == old(free) && forall j :: 0 <= j < i ==> !free[j]
      {
        if free[i] {
          free := free[i := false];
          return i;
        }
      }
      return -1;
    }

    /** free_desc: its two panics do not happen. */
    method FreeDesc(i: nat)
      requires |free| == NUM && |desc| == NUM && i < NUM && !free[i]
      modifies this`free, this`desc
      ensures free == old(free)[i := true] && desc == old(desc)[i := NO_DESC]
    {
      desc := desc[i := NO_DESC];
      free := free[i := true];
    }

    /** alloc3_desc: three descriptors, or none if there are not three. */
    method Alloc3Desc() returns (ok: bool, idx: seq<nat>)
      requires |free| == NUM && |desc| == NUM && forall d :: 0 <= d < NUM && free[d] ==> desc[d] == NO_DESC
      modifies this`free, this`desc
      ensures desc == old(desc)
      ensures !ok ==> free == old(free) && CountFree(free) < 3
      ensures ok ==> |idx| == 3 && (forall n :: 0 <= n < 3 ==> idx[n] < NUM && old(free)[idx[n]])
      ensures ok ==> idx[0] != idx[1] && idx[0] != idx[2] && idx[1] != idx[2]
      ensures ok ==> free == old(free)[idx[0] := false][idx[1] := false][idx[2] := false]
    {
      idx := [];
      ghost var frees := [free];
      var i := 0;
      while i < 3
        invariant i <= 3 && |idx| == i && |frees| == i + 1 && frees[0] == old(free) && frees[i] == free
                  && desc == old(desc)
        invariant forall n :: 0 <= n <= i ==> |frees[n]| == NUM
        invariant forall n :: 0 <= n < i ==> idx[n] < NUM && frees[n][idx[n]]
                                             && frees[n + 1] == frees[n][idx[n] := false]
        invariant CountFree(old(free)) == CountFree(free) + i
        invariant forall n :: 0 <= n < i ==> old(free)[idx[n]] && !free[idx[n]]
        invariant forall m, n :: 0 <= m < n < i ==> idx[m] != idx[n]
        invariant forall d :: 0 <= d < NUM && d !in idx ==> free[d] == old(free)[d]
      {
        var d := AllocDesc();
        if d < 0 {
          CountNone(free);
          GiveBack(idx, old(free));
          return false, [];
        }
        CountUpdate(frees[i], d);
        idx := idx + [d];
        frees := frees + [free];
        i := i + 1;
      }
      assert free == old(free)[idx[0] := false][idx[1] := false][idx[2] := false];
      return true, idx;
    }

    /** The inner loop of alloc3_desc. */
    method GiveBack(idx: seq<nat>, ghost was: seq<bool>)
      requires |free| == NUM && |desc| == NUM && |was| == NUM
      requires forall n :: 0 <= n < |idx| ==> idx[n] < NUM && was[idx[n]] && !free[idx[n]] && desc[idx[n]] == NO_DESC
      requires forall m, n :: 0 <= m < n < |idx| ==> idx[m] != idx[n]
      requires forall d :: 0 <= d < NUM && d !in idx ==> free[d] == was[d]
      modifies this`free, this`desc
      ensures free == was && desc == old(desc)
    {
      for j := 0 to |idx|
        invariant |free| == NUM && desc == old(desc)
        invariant forall n :: 0 <= n < |idx| ==> free[idx[n]] == (n < j)
        invariant forall d :: 0 <= d < NUM && d !in idx ==> free[d] == was[d]
      {
        FreeDesc(idx[j]);
      }
    }

    /** free_chain, for a chain of three. */
    method FreeChain(head: nat)
      requires |desc| == NUM && |free| == NUM && head < NUM && desc[head].next < NUM && desc[desc[head].next].next < NUM
      requires var j := desc[head].next; var k := desc[j].next;
               && head != j && head != k && j != k && !free[head] && !free[j] && !free[k]
               && desc[head].chained && desc[j].chained && !desc[k].chained
      modifies this`free, this`desc
      ensures var j := old(desc)[head].next; var k := old(desc)[j].next;
              free == old(free)[head := true][j := true][k := true]
                && desc == old(desc)[head := NO_DESC][j := NO_DESC][k := NO_DESC]
    {
      var i := head;
      ghost var j := desc[head].next;
      ghost var k := desc[j].next;
      ghost var n := 0;
      while true
        invariant n < 3 && i == (if n == 0 then head else if n == 1 then j else k)
        invariant free == (if n == 0 then old(free) else if n == 1 then old(free)[head := true]
                                                                        else old(free)[head := true][j := true])
        invariant desc == (if n == 0 then old(desc) else if n == 1 then old(desc)[head := NO_DESC]
                                                                        else old(desc)[head := NO_DESC][j := NO_DESC])
        decreases 3 - n
      {
        var flag, nxt := desc[i].chained, desc[i].next;
        FreeDesc(i);
        if flag {
          i := nxt;
        } else {
          break;
        }
        n := n + 1;
      }
    }

    /** The part of virtio_disk_rw that writes the request, with three descriptors in hand. */
    method WriteRequest(b: nat, write: bool, blockno: nat, i: nat, j: nat, k: nat)
      requires |desc| == NUM && |ops| == NUM && |status| == NUM && |info| == NUM && |availRing| == NUM && i < NUM
               && j < NUM && k < NUM
      modifies this`ops, this`desc, this`status, this`busy, this`info, this`availRing
      ensures ops == old(ops)[i := Op(write, 2 * blockno)] && status == old(status)[i := 0xff]
      ensures desc == old(desc)[i := Desc(Header(i), true, false, j)][j := Desc(BufData(b), true, !write,
              k)][k := Desc(Status(i), false, true, 0)]
      ensures busy == old(busy) + {b} && info == old(info)[i := Some(b)]
              && availRing == old(availRing)[avail % NUM := i]
    {
      ops := ops[i := Op(write, 2 * blockno)];
      desc := desc[i := Desc(Header(i), true, false, j)];
      desc := desc[j := Desc(BufData(b), true, !write, k)];
      status := status[i := 0xff];
      desc := desc[k := Desc(Status(i), false, true, 0)];
      busy := busy + {b};
      info := info[i := Some(b)];
      availRing := availRing[avail % NUM := i];
    }

    /** virtio_disk_rw up to where it waits; false if it must sleep for descriptors. */
    method Submit(b: nat, write: bool, blockno: nat) returns (ok: bool, idx: seq<nat>)
      requires Matches() && Inv(s) && s.filling == None && b !in s.waiting
      modifies this
      ensures Matches() && Inv(s)
      ensures !ok ==> s == old(s) && CountFree(free) < 3
      ensures ok ==> |idx| == 3 && CanFill(old(s), b, idx[0], idx[1], idx[2])
      ensures ok ==> var m := Fill(old(s), b, write, blockno, idx[0], idx[1], idx[2]);
                     m.filling == Some(b) && b in m.waiting && s == Publish(m)
    {
      hide Inv, Fill, Publish, CountFree;
      FreeDescs(s);
      ok, idx := Alloc3Desc();
      if !ok {
        return;
      }
      var i, j, k := idx[0], idx[1], idx[2];
      FillInv(s, b, write, blockno, i, j, k);
      FillIs(s, b, write, blockno, i, j, k);
      WriteRequest(b, write, blockno, i, j, k);
      s := Fill(s, b, write, blockno, i, j, k);
      assert Matches();
      PublishInv(s);
      PublishIs(s);
      avail := (avail + 1) % WRAP;
      s := Publish(s);
    }

    /** virtio_disk_intr: all that the device has completed is marked as done. */
    method Intr()
      requires Matches() && Inv(s) && s.filling == None
      modifies this`seen, this`busy, this`s
      ensures Matches() && Inv(s) && s == SeeAll(old(s), |old(s).comp|) && s.comp == [] && seen == used
    {
      hide Inv, See;
      ghost var n := 0;
      IndexTests(s);
      while seen != used
        invariant Matches() && Inv(s) && s.filling == None && Shape(s) && n <= |old(s).comp|
                  && s.comp == old(s).comp[n..] && s == SeeAll(old(s), n)
        decreases |s.comp|
      {
        SeeInv(s);
        SeeFacts(s);
        var id := usedRing[seen % NUM];
        assert status[id] == 0;                       // panic: virtio_disk_intr status
        var b := info[id].value;
        busy := busy - {b};
        seen := (seen + 1) % WRAP;
        s := See(s);
        n := n + 1;
      }
      IndexTests(s);
    }

    /** virtio_disk_rw from where its request is done; head is the thread's idx[0]. */
    method Conclude(b: nat, head: nat)
      requires Matches() && Inv(s) && s.filling == None && b in s.waiting && b !in s.busy && head == s.waiting[b].head
      modifies this
      ensures Matches() && Inv(s) && Shape(old(s)) && head < NUM && InChain(old(s), head) && s == Finish(old(s), b)
    {
      hide Inv, Finish;
      ChainShape(s, b);
      FinishInv(s, b);
      FinishIs(s, b);
      info := info[head := None];
      FreeChain(head);
      s := Finish(s, b);
    }
  }

  lemma FreeDescs(s: St)
    requires Inv(s)
    ensures Shape(s) && forall d :: 0 <= d < NUM && s.free[d] ==> s.desc[d] == NO_DESC
  {
    forall d | 0 <= d < NUM && s.free[d] ensures s.desc[d] == NO_DESC { assert DescAt(s, d); }
  }

  lemma FillIs(s: St, b: nat, write: bool, blockno: nat, i: nat, j: nat, k: nat)
    requires CanFill(s, b, i, j, k)
    ensures var m := Fill(s, b, write, blockno, i, j, k);
            && m.free == s.free[i := false][j := false][k := false] && m.ops == s.ops[i := Op(write, 2 * blockno)]
            && m.desc == s.desc[i := Desc(Header(i), true, false, j)][j := Desc(BufData(b), true, !write,
               k)][k := Desc(Status(i), false, true, 0)]
            && m.status == s.status[i := 0xff] && m.info == s.info[i := Some(b)] && m.busy == s.busy + {b}
            && m.availRing == s.availRing[s.avail % NUM := i] && m.avail == s.avail
            && m.usedRing == s.usedRing && m.used == s.used && m.seen == s.seen
            && m.filling == Some(b) && b in m.waiting && m.waiting[b].head == i
  {
  }

  lemma PublishIs(s: St)
    requires s.filling.Some? && s.filling.value in s.waiting
    ensures var m := Publish(s);
            && m == s.(avail := (s.avail + 1) % WRAP, filling := None,
               queue := s.queue + [s.waiting[s.filling.value].head])
  {
  }

  lemma FinishIs(s: St, b: nat)
    requires CanFinish(s, b)
    ensures var i := s.waiting[b].head; var j := s.desc[i].next; var k := s.desc[j].next; var m := Finish(s, b);
            && m.info == s.info[i := None] && m.desc == s.desc[i := NO_DESC][j := NO_DESC][k := NO_DESC]
            && m.free == s.free[i := true][j := true][k := true]
            && m.ops == s.ops && m.status == s.status && m.availRing == s.availRing && m.avail == s.avail
            && m.usedRing == s.usedRing && m.used == s.used && m.seen == s.seen && m.busy == s.busy
  {
  }

  /** The interrupt handler's loop. */
  function SeeAll(s: St, n: nat): St {
    if n == 0 then s else var m := SeeAll(s, n - 1); if Shape(m) then See(m) else m
  }

  lemma SeeFacts(s: St)
    requires Inv(s) && Shape(s) && s.comp != [] && s.usedRing[s.seen % NUM] == s.comp[0] && s.comp[0] < NUM
             && s.info[s.comp[0]].Some?
    ensures See(s) == s.(busy := s.busy - {s.info[s.comp[0]].value}, seen := (s.seen + 1) % WRAP, comp := s.comp[1..])
  {
  }

  lemma ChainShape(s: St, b: nat)
    requires Inv(s) && b in s.waiting
    ensures Shape(s) && s.waiting[b].head < NUM && InChain(s, s.waiting[b].head) && RequestAt(s, b)
    ensures var i := s.waiting[b].head; var j := s.desc[i].next; var k := s.desc[j].next;
                                                                 s.desc[i].chained && s.desc[j].chained
                                                                 && !s.desc[k].chained
  {
    assert RequestAt(s, b);
  }
}
