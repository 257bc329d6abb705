/** Every step of driver and device keeps the invariant of the virtqueue. */
module VdiskSteps {
  import opened Options
  import opened VdiskSpec

  /** At most NUM different descriptors are in a queue. */
  lemma Bounded(q: seq<nat>, n: nat)
    requires Distinct(q) && forall i :: 0 <= i < |q| ==> q[i] < n
    ensures |q| <= n
    decreases n
  {
    if q != [] {
      assert q[0] < n;
      if exists i :: 0 <= i < |q| && q[i] == n - 1 {
        var i :| 0 <= i < |q| && q[i] == n - 1;
        var rest := q[..i] + q[i + 1..];
        forall a, b | 0 <= a < b < |rest| ensures rest[a] != rest[b] {
          var a', b' := if a < i then a else a + 1, if b < i then b else b + 1;
          assert rest[a] == q[a'] && rest[b] == q[b'] && a' < b';
        }
        forall a | 0 <= a < |rest| ensures rest[a] < n - 1 {
          var a' := if a < i then a else a + 1;
          assert rest[a] == q[a'] && a' != i;
          assert if a' < i then q[a'] != q[i] else q[i] != q[a'];
        }
        Bounded(rest, n - 1);
      } else {
        Bounded(q, n - 1);
      }
    }
  }

  lemma QueueBound(s: St)
    requires Inv(s)
    ensures Shape(s) && |s.queue| <= NUM && |s.comp| <= NUM
    ensures s.filling.Some? ==> |s.queue| < NUM
    ensures s.ready.Some? ==> |s.comp| < NUM
  {
    hide RequestAt, DescAt, IdleAt;
    forall i | 0 <= i < |s.queue| ensures s.queue[i] < NUM { assert HeadAt(s, s.queue[i]); }
    forall i | 0 <= i < |s.comp| ensures s.comp[i] < NUM { assert HeadAt(s, s.comp[i]); }
    Bounded(s.queue, NUM);
    Bounded(s.comp, NUM);
    if s.filling.Some? {
      var h := s.waiting[s.filling.value].head;
      assert HeadAt(s, h);
      var q := s.queue + [h];
      forall i | 0 <= i < |q| ensures q[i] < NUM { assert HeadAt(s, q[i]); }
      Bounded(q, NUM);
    }
    if s.ready.Some? {
      var h := s.ready.value;
      assert HeadAt(s, h);
      var q := s.comp + [h];
      forall i | 0 <= i < |q| ensures q[i] < NUM { assert HeadAt(s, q[i]); }
      Bounded(q, NUM);
    }
  }

  /** The tests the code makes: an index differs from its partner just if the queue between them is not empty,
      even though both wrap around at 65536. */
  lemma IndexTests(s: St)
    requires Inv(s)
    ensures Shape(s) && (s.dev != s.avail <==> s.queue != []) && (s.seen != s.used <==> s.comp != [])
  {
    QueueBound(s);
    assert Rings(s);
    Wraps(s.dev, |s.queue|);
    Wraps(s.seen, |s.comp|);
  }

  lemma Wraps(a: nat, n: nat)
    requires a < WRAP && n <= NUM
    ensures (a + n) % WRAP == a <==> n == 0
  {
  }

  /** Slot numbers are not confused by the wrap-around, since NUM divides it. */
  lemma SlotOf(a: nat, n: nat)
    ensures ((a + n) % WRAP) % NUM == (a + n) % NUM
  {
  }

  /** A write one past the end of a queue that is not full leaves the entries of the queue alone. */
  lemma RingPush(ring: seq<nat>, from: nat, q: seq<nat>, x: nat, n: nat)
    requires |ring| == NUM && |q| < NUM && RingAt(ring, from, q, n)
    ensures RingAt(ring[(from + |q|) % NUM := x], from, q, n) && RingAt(ring[(from + |q|) % NUM := x], from, q + [x], n)
  {
    if n < |q| { Apart(from, n, |q|); }
  }

  lemma Apart(from: nat, m: nat, n: nat)
    requires m < n < m + NUM
    ensures (from + m) % NUM != (from + n) % NUM
  {
  }

  lemma RingPop(ring: seq<nat>, from: nat, q: seq<nat>, n: nat)
    requires |ring| == NUM && q != [] && RingAt(ring, from, q, n + 1)
    ensures RingAt(ring, (from + 1) % WRAP, q[1..], n)
  {
    if n < |q[1..]| { Shifted(from, n); }
  }

  lemma Shifted(from: nat, n: nat)
    ensures ((from + 1) % WRAP + n) % NUM == (from + (n + 1)) % NUM
  {
    SlotOf(from, 1);
  }

  // ----- filling in a request -----

  predicate CanFill(s: St, b: nat, i: nat, j: nat, k: nat) {
    && Shape(s) && s.filling == None && b !in s.waiting
    && i < NUM && j < NUM && k < NUM && i != j && i != k && j != k && s.free[i] && s.free[j] && s.free[k]
  }

  lemma FillInv(s: St, b: nat, write: bool, blockno: nat, i: nat, j: nat, k: nat)
    requires Inv(s) && CanFill(s, b, i, j, k)
    ensures Inv(Fill(s, b, write, blockno, i, j, k))
  {
    hide RequestAt, DescAt, IdleAt, HeadAt, RingAt, Fill, Rings, Stage;
    var s' := Fill(s, b, write, blockno, i, j, k);
    FillShape(s, b, write, blockno, i, j, k);
    FillFresh(s, b, i, j, k);
    Room(s, i);
    FillRings(s, b, write, blockno, i, j, k);
    forall x: nat
      ensures RequestAt(s', x)
    {
      assert RequestAt(s, x) && IdleAt(s, b);
      FillRequest(s, b, write, blockno, i, j, k, x);
    }
    forall x: nat ensures IdleAt(s', x) { assert IdleAt(s, x); FillIdle(s, b, write, blockno, i, j, k, x); }
    forall d: nat ensures DescAt(s', d) {
      assert DescAt(s, d);
      if d < NUM && s.own[d].Some? { assert RequestAt(s, s.own[d].value); }
      FillDesc(s, b, write, blockno, i, j, k, d);
    }
    forall h: nat ensures HeadAt(s', h) { assert HeadAt(s, h); FillHead(s, b, write, blockno, i, j, k, h); }
    forall n: nat
      ensures RingAt(s'.availRing, s'.dev, s'.queue, n)
    {
      assert RingAt(s.availRing, s.dev, s.queue, n);
      FillRing(s, b, write, blockno, i, j, k, n);
    }
    forall n: nat
      ensures RingAt(s'.usedRing, s'.seen, s'.comp, n)
    {
      assert RingAt(s.usedRing, s.seen, s.comp, n);
      FillSame(s, b, write, blockno, i, j, k);
    }
  }

  lemma FillShape(s: St, b: nat, write: bool, blockno: nat, i: nat, j: nat, k: nat)
    requires CanFill(s, b, i, j, k)
    ensures Shape(Fill(s, b, write, blockno, i, j, k))
  {
  }

  lemma FillSame(s: St, b: nat, write: bool, blockno: nat, i: nat, j: nat, k: nat)
    requires CanFill(s, b, i, j, k)
    ensures var s' := Fill(s, b, write, blockno, i, j, k);
            s'.usedRing == s.usedRing && s'.seen == s.seen && s'.comp == s.comp && s'.queue == s.queue
              && s'.dev == s.dev
  {
  }

  /** Free descriptors are in no queue. */
  lemma FillFresh(s: St, b: nat, i: nat, j: nat, k: nat)
    requires Inv(s) && CanFill(s, b, i, j, k)
    ensures !InHands(s, i) && s.own[i] == None && s.own[j] == None && s.own[k] == None
  {
    assert DescAt(s, i) && DescAt(s, j) && DescAt(s, k) && HeadAt(s, i);
  }

  lemma FillRings(s: St, b: nat, write: bool, blockno: nat, i: nat, j: nat, k: nat)
    requires CanFill(s, b, i, j, k) && Rings(s)
    ensures Rings(Fill(s, b, write, blockno, i, j, k))
  {
  }

  lemma FillRing(s: St, b: nat, write: bool, blockno: nat, i: nat, j: nat, k: nat, n: nat)
    requires CanFill(s, b, i, j, k) && Rings(s) && RingAt(s.availRing, s.dev, s.queue, n) && |s.queue| < NUM
    ensures var s' := Fill(s, b, write, blockno, i, j, k); RingAt(s'.availRing, s'.dev, s'.queue, n)
  {
    SlotOf(s.dev, |s.queue|);
    RingPush(s.availRing, s.dev, s.queue, i, n);
  }

  /** While some descriptor is in no queue, the queues are not full. */
  lemma Room(s: St, h: nat)
    requires Inv(s) && Shape(s) && h < NUM && !InHands(s, h)
    ensures |s.queue| < NUM && |s.comp| < NUM
  {
    hide RequestAt, DescAt, IdleAt;
    var q, c := s.queue + [h], s.comp + [h];
    forall i | 0 <= i < |q| ensures q[i] < NUM { assert HeadAt(s, q[i]); }
    forall i | 0 <= i < |c| ensures c[i] < NUM { assert HeadAt(s, c[i]); }
    Bounded(q, NUM);
    Bounded(c, NUM);
  }

  lemma FillRequest(s: St, b: nat, write: bool, blockno: nat, i: nat, j: nat, k: nat, x: nat)
    requires CanFill(s, b, i, j, k) && RequestAt(s, x) && IdleAt(s, b) && !InHands(s, i)
    requires s.own[i] == None && s.own[j] == None && s.own[k] == None
    ensures RequestAt(Fill(s, b, write, blockno, i, j, k), x)
  {
    hide Stage;
    StageNext(s.log, Asked(b, write, blockno), x);
  }

  lemma FillIdle(s: St, b: nat, write: bool, blockno: nat, i: nat, j: nat, k: nat, x: nat)
    requires CanFill(s, b, i, j, k) && IdleAt(s, x)
    ensures IdleAt(Fill(s, b, write, blockno, i, j, k), x)
  {
    hide Stage;
    StageNext(s.log, Asked(b, write, blockno), x);
  }

  lemma FillDesc(s: St, b: nat, write: bool, blockno: nat, i: nat, j: nat, k: nat, d: nat)
    requires CanFill(s, b, i, j, k) && DescAt(s, d) && (d < NUM && s.own[d].Some? ==> RequestAt(s, s.own[d].value))
    requires s.own[i] == None && s.own[j] == None && s.own[k] == None
    ensures DescAt(Fill(s, b, write, blockno, i, j, k), d)
  {
    hide Stage;
  }

  lemma FillHead(s: St, b: nat, write: bool, blockno: nat, i: nat, j: nat, k: nat, h: nat)
    requires CanFill(s, b, i, j, k) && HeadAt(s, h) && !InHands(s, i)
    requires s.own[i] == None && s.own[j] == None && s.own[k] == None
    ensures HeadAt(Fill(s, b, write, blockno, i, j, k), h)
  {
  }

  // ----- telling the device -----

  lemma PublishInv(s: St)
    requires Inv(s) && s.filling.Some?
    ensures s.filling.value in s.waiting && Inv(Publish(s))
  {
    hide RingAt, Stage;
    assert Rings(s);
    var s', h := Publish(s), s.waiting[s.filling.value].head;
    QueueBound(s);
    assert HeadAt(s, h);
    NextIndex(s.dev + |s.queue|);
    SlotOf(s.dev, |s.queue|);
    forall b: nat ensures RequestAt(s', b) { assert RequestAt(s, b); }
    forall b: nat ensures IdleAt(s', b) { assert IdleAt(s, b); }
    forall d: nat ensures DescAt(s', d) { assert DescAt(s, d); }
    forall i: nat ensures HeadAt(s', i) { assert HeadAt(s, i); }
    forall n: nat
      ensures RingAt(s'.availRing, s'.dev, s'.queue, n)
    {
      assert RingAt(s.availRing, s.dev, s.queue, n);
      RingExtend(s.availRing, s.dev, s.queue, h, n);
    }
    forall n: nat ensures RingAt(s'.usedRing, s'.seen, s'.comp, n) { assert RingAt(s.usedRing, s.seen, s.comp, n); }
  }

  lemma NextIndex(x: nat)
    ensures (x % WRAP + 1) % WRAP == (x + 1) % WRAP
  {
  }

  lemma RingExtend(ring: seq<nat>, from: nat, q: seq<nat>, x: nat, n: nat)
    requires |ring| == NUM && RingAt(ring, from, q, n) && ring[(from + |q|) % NUM] == x
    ensures RingAt(ring, from, q + [x], n)
  {
  }

  // ----- the device -----

  lemma TakeInv(s: St)
    requires Inv(s) && Shape(s) && s.dev != s.avail
    ensures s.queue != [] && s.availRing[s.dev % NUM] == s.queue[0] && Inv(DeviceTake(s))
  {
    hide RingAt, Stage;
    IndexTests(s);
    FirstOf(s.availRing, s.dev, s.queue);
    var s', h := DeviceTake(s), s.queue[0];
    assert Rings(s) && HeadAt(s, h);
    Rest(s.queue);
    TakeIndex(s.dev, |s.queue|);
    forall b: nat ensures RequestAt(s', b) { assert RequestAt(s, b); }
    forall b: nat ensures IdleAt(s', b) { assert IdleAt(s, b); }
    forall d: nat ensures DescAt(s', d) { assert DescAt(s, d); }
    forall i: nat ensures HeadAt(s', i) { assert HeadAt(s, i); }
    forall n: nat
      ensures RingAt(s'.availRing, s'.dev, s'.queue, n)
    {
      assert RingAt(s.availRing, s.dev, s.queue, n + 1);
      RingPop(s.availRing, s.dev, s.queue, n);
    }
    forall n: nat ensures RingAt(s'.usedRing, s'.seen, s'.comp, n) { assert RingAt(s.usedRing, s.seen, s.comp, n); }
  }

  lemma FirstOf(ring: seq<nat>, from: nat, q: seq<nat>)
    requires q != [] && |ring| == NUM && (forall n: nat {:trigger RingAt(ring, from, q, n)} :: RingAt(ring, from, q, n))
    ensures ring[from % NUM] == q[0]
  {
    assert RingAt(ring, from, q, 0);
  }

  /** Taking the first element off a queue of different elements. */
  lemma Rest(q: seq<nat>)
    requires q != [] && Distinct(q)
    ensures Distinct(q[1..]) && q[0] !in q[1..] && forall x :: x in q <==> x == q[0] || x in q[1..]
  {
    assert q == [q[0]] + q[1..];
  }

  lemma TakeIndex(a: nat, n: nat)
    requires n > 0
    ensures (a + n) % WRAP == ((a + 1) % WRAP + (n - 1)) % WRAP
  {
    var q := (a + 1) / WRAP;
    assert a + 1 == q * WRAP + (a + 1) % WRAP;
    SameRest((a + 1) % WRAP + (n - 1), q);
  }

  lemma SameRest(x: nat, q: nat)
    ensures (q * WRAP + x) % WRAP == x % WRAP
  {
  }

  lemma PerformInv(s: St, h: nat)
    requires Inv(s) && Shape(s) && h in s.taken && s.ready == None
    ensures h < NUM && s.own[h].Some? && s.own[h].value in s.waiting && BufferOf(s, h) == s.own[h].value
            && StatusOf(s, h) == h
    ensures Inv(DevicePerform(s, h))
  {
    hide RingAt, Stage;
    assert HeadAt(s, h);
    var b := s.own[h].value;
    assert RequestAt(s, b);
    var r := s.waiting[b];
    var s' := DevicePerform(s, h);
    assert Rings(s);
    NotInComp(s, h);
    SlotOf(s.seen, |s.comp|);
    assert Rings(s');
    forall x: nat
      ensures RequestAt(s', x)
    {
      assert RequestAt(s, x);
      StageNext(s.log, Performed(b, r.write, r.blockno), x);
    }
    forall x: nat ensures IdleAt(s', x) { assert IdleAt(s, x); StageNext(s.log, Performed(b, r.write, r.blockno), x); }
    forall d: nat ensures DescAt(s', d) { assert DescAt(s, d); }
    forall i: nat ensures HeadAt(s', i) { assert HeadAt(s, i); }
    forall n: nat ensures RingAt(s'.availRing, s'.dev, s'.queue, n) { assert RingAt(s.availRing, s.dev, s.queue, n); }
    forall n: nat
      ensures RingAt(s'.usedRing, s'.seen, s'.comp, n)
    {
      assert RingAt(s.usedRing, s.seen, s.comp, n);
      RingPush(s.usedRing, s.seen, s.comp, h, n);
    }
  }

  /** The used ring has room for a request the device has not done yet. */
  lemma NotInComp(s: St, h: nat)
    requires Inv(s) && Shape(s) && h in s.taken
    ensures |s.comp| < NUM
  {
    hide RequestAt, DescAt, IdleAt;
    assert HeadAt(s, h);
    var c := s.comp + [h];
    forall i | 0 <= i < |c| ensures c[i] < NUM { assert HeadAt(s, c[i]); }
    Bounded(c, NUM);
  }

  lemma DevicePublishInv(s: St)
    requires Inv(s) && s.ready.Some?
    ensures Inv(DevicePublish(s))
  {
    hide RingAt, Stage;
    assert Rings(s);
    var s', h := DevicePublish(s), s.ready.value;
    QueueBound(s);
    assert HeadAt(s, h);
    NextIndex(s.seen + |s.comp|);
    SlotOf(s.seen, |s.comp|);
    forall b: nat ensures RequestAt(s', b) { assert RequestAt(s, b); }
    forall b: nat ensures IdleAt(s', b) { assert IdleAt(s, b); }
    forall d: nat ensures DescAt(s', d) { assert DescAt(s, d); }
    forall i: nat ensures HeadAt(s', i) { assert HeadAt(s, i); }
    forall n: nat ensures RingAt(s'.availRing, s'.dev, s'.queue, n) { assert RingAt(s.availRing, s.dev, s.queue, n); }
    forall n: nat
      ensures RingAt(s'.usedRing, s'.seen, s'.comp, n)
    {
      assert RingAt(s.usedRing, s.seen, s.comp, n);
      RingExtend(s.usedRing, s.seen, s.comp, h, n);
    }
  }

  // ----- the interrupt and the end of a request -----

  lemma SeeInv(s: St)
    requires Inv(s) && Shape(s) && s.filling == None && s.seen != s.used
    ensures s.comp != [] && s.usedRing[s.seen % NUM] == s.comp[0]
    ensures var id := s.comp[0]; id < NUM && s.status[id] == 0 && s.info[id].Some? && s.info[id] == s.own[id]
                                 && s.info[id].value in s.busy
    ensures Inv(See(s))
  {
    hide RingAt, Stage, RequestAt, DescAt, IdleAt, HeadAt, See;
    IndexTests(s);
    FirstOf(s.usedRing, s.seen, s.comp);
    var s', h := See(s), s.comp[0];
    assert HeadAt(s, h);
    SeeHead(s, h);
    var b := s.own[h].value;
    assert RequestAt(s, b);
    SeeSame(s, b);
    forall x: nat
      ensures RequestAt(s', x) && IdleAt(s', x)
    {
      assert RequestAt(s, x) && IdleAt(s, x);
      SeeRequest(s, b, x);
    }
    forall d: nat ensures DescAt(s', d) { assert DescAt(s, d); SeeDesc(s, s', d); }
    forall i: nat ensures HeadAt(s', i) { assert HeadAt(s, i); SeeHeads(s, b, i); }
    forall n: nat ensures RingAt(s'.availRing, s'.dev, s'.queue, n) { assert RingAt(s.availRing, s.dev, s.queue, n); }
    forall n: nat
      ensures RingAt(s'.usedRing, s'.seen, s'.comp, n)
    {
      assert RingAt(s.usedRing, s.seen, s.comp, n + 1);
      RingPop(s.usedRing, s.seen, s.comp, n);
    }
  }

  lemma SeeHead(s: St, h: nat)
    requires Shape(s) && HeadAt(s, h) && h in s.comp
    ensures h < NUM && s.own[h].Some? && s.own[h].value in s.waiting && s.waiting[s.own[h].value].head == h
  {
  }

  /** The interrupt handler is at the entry of the request for buffer b. */
  predicate Seeing(s: St, b: nat) {
    && Shape(s) && s.comp != [] && Distinct(s.comp) && s.comp[0] < NUM && s.usedRing[s.seen % NUM] == s.comp[0]
       && s.own[s.comp[0]] == Some(b)
    && b in s.waiting && s.waiting[b].head == s.comp[0] && RequestAt(s, b)
  }

  lemma SeeSame(s: St, b: nat)
    requires Seeing(s, b) && Rings(s) && s.filling == None
    ensures s.info[s.comp[0]] == Some(b) && s.status[s.comp[0]] == 0 && b in s.busy
    ensures var s' := See(s);
            && Shape(s') && Rings(s') && s' == s.(busy := s.busy - {b}, seen := (s.seen + 1) % WRAP,
               comp := s.comp[1..])
  {
    hide Stage;
    Rest(s.comp);
    TakeIndex(s.seen, |s.comp|);
  }

  lemma SeeRequest(s: St, b: nat, x: nat)
    requires Seeing(s, b) && RequestAt(s, x) && IdleAt(s, x) && s.info[s.comp[0]] == Some(b)
    requires HeadAt(s, s.comp[0])
    ensures RequestAt(See(s), x) && IdleAt(See(s), x)
  {
    hide Stage;
    Rest(s.comp);
  }

  lemma SeeDesc(s: St, s': St, d: nat)
    requires Shape(s) && Shape(s') && DescAt(s, d) && s'.free == s.free && s'.own == s.own && s'.desc == s.desc
             && s'.waiting == s.waiting
    ensures DescAt(s', d)
  {
  }

  lemma SeeHeads(s: St, b: nat, i: nat)
    requires Seeing(s, b) && HeadAt(s, i)
    ensures HeadAt(See(s), i)
  {
    Rest(s.comp);
  }

  lemma FinishInv(s: St, b: nat)
    requires Inv(s) && Shape(s) && s.filling == None && b in s.waiting && b !in s.busy
    ensures s.waiting[b].head < NUM && InChain(s, s.waiting[b].head)
    ensures var i := s.waiting[b].head; var j := s.desc[i].next; var k := s.desc[j].next;
                                                                 !s.free[i] && !s.free[j] && !s.free[k] && i != j
                                                                 && i != k && j != k
    ensures Inv(Finish(s, b))
  {
    hide RingAt, Stage, Finish;
    assert RequestAt(s, b);
    var i := s.waiting[b].head;
    var j := s.desc[i].next;
    var k := s.desc[j].next;
    assert DescAt(s, i) && DescAt(s, j) && DescAt(s, k);
    var s' := Finish(s, b);
    hide RequestAt, DescAt, IdleAt, HeadAt, Rings;
    FinishSame(s, b);
    forall x: nat
      ensures RequestAt(s', x) && IdleAt(s', x)
    {
      assert RequestAt(s, x) && IdleAt(s, x);
      FinishRequest(s, b, x);
    }
    forall d: nat ensures DescAt(s', d) {
      assert DescAt(s, d);
      if d < NUM && s.own[d].Some? { assert RequestAt(s, s.own[d].value); }
      FinishDesc(s, b, d);
    }
    forall h: nat ensures HeadAt(s', h) { assert HeadAt(s, h); FinishHead(s, b, h); }
    forall n: nat ensures RingAt(s'.availRing, s'.dev, s'.queue, n) { assert RingAt(s.availRing, s.dev, s.queue, n); }
    forall n: nat ensures RingAt(s'.usedRing, s'.seen, s'.comp, n) { assert RingAt(s.usedRing, s.seen, s.comp, n); }
  }

  predicate CanFinish(s: St, b: nat) {
    Shape(s) && s.filling == None && b in s.waiting && b !in s.busy && s.waiting[b].head < NUM
      && InChain(s, s.waiting[b].head) && RequestAt(s, b)
  }

  lemma FinishSame(s: St, b: nat)
    requires CanFinish(s, b) && Rings(s)
    ensures var s' := Finish(s, b);
            && Shape(s') && Rings(s') && s'.availRing == s.availRing && s'.dev == s.dev && s'.queue == s.queue
            && s'.usedRing == s.usedRing && s'.seen == s.seen && s'.comp == s.comp
  {
  }

  lemma FinishRequest(s: St, b: nat, x: nat)
    requires CanFinish(s, b) && RequestAt(s, x) && IdleAt(s, x)
    ensures RequestAt(Finish(s, b), x) && IdleAt(Finish(s, b), x)
  {
    hide Stage;
    StageNext(s.log, Finished(b), x);
  }

  lemma FinishDesc(s: St, b: nat, d: nat)
    requires CanFinish(s, b) && DescAt(s, d) && (d < NUM && s.own[d].Some? ==> RequestAt(s, s.own[d].value))
    ensures DescAt(Finish(s, b), d)
  {
    hide Stage;
  }

  lemma FinishHead(s: St, b: nat, h: nat)
    requires CanFinish(s, b) && HeadAt(s, h)
    ensures HeadAt(Finish(s, b), h)
  {
    hide Stage;
  }

  // ----- runs -----

  datatype Act =
    | FillIn(b: nat, write: bool, blockno: nat, i: nat, j: nat, k: nat)
    | Tell
    | TakeNext
    | PerformOne(h: nat)
    | PublishUsed
    | Interrupt
    | End(b: nat)
    | Change(b: nat, data: Data)

  /** What the code, or the device, tests before it takes the step. */
  predicate Enabled(s: St, a: Act) {
    && Shape(s)
    && match a
       case FillIn(b, _, _, i, j, k) => CanFill(s, b, i, j, k)
       case Tell => s.filling.Some?
       case TakeNext => s.dev != s.avail
       case PerformOne(h) => h in s.taken && s.ready == None
       case PublishUsed => s.ready.Some?
       case Interrupt => s.filling == None && s.seen != s.used
       case End(b) => s.filling == None && b in s.waiting && b !in s.busy
       case Change(b, _) => b !in s.waiting
  }

  /** What the step relies on besides. */
  predicate Sound(s: St, a: Act) {
    && Shape(s)
    && match a
       case Tell => s.filling.Some? && s.filling.value in s.waiting
       case TakeNext => s.queue != []
       case PerformOne(h) => h < NUM
       case PublishUsed => s.ready.Some?
       case End(b) => b in s.waiting && s.waiting[b].head < NUM && InChain(s, s.waiting[b].head)
       case _ => true
  }

  function Do(s: St, a: Act): St
    requires Enabled(s, a) && Sound(s, a)
  {
    match a
    case FillIn(b, write, blockno, i, j, k) => Fill(s, b, write, blockno, i, j, k)
    case Tell => Publish(s)
    case TakeNext => DeviceTake(s)
    case PerformOne(h) => DevicePerform(s, h)
    case PublishUsed => DevicePublish(s)
    case Interrupt => See(s)
    case End(b) => Finish(s, b)
    case Change(b, data) => Store(s, b, data)
  }

  lemma DoInv(s: St, a: Act)
    requires Inv(s) && Enabled(s, a)
    ensures Sound(s, a) && Inv(Do(s, a))
  {
    hide Inv, Fill, Publish, DeviceTake, DevicePerform, DevicePublish, See, Finish;
    match a
    case FillIn(b, write, blockno, i, j, k) => FillInv(s, b, write, blockno, i, j, k);
    case Tell => PublishInv(s);
    case TakeNext => TakeInv(s);
    case PerformOne(h) => PerformInv(s, h);
    case PublishUsed => DevicePublishInv(s);
    case Interrupt => SeeInv(s);
    case End(b) => FinishInv(s, b);
    case Change(b, data) => StoreInv(s, b, data);
  }

  lemma StoreInv(s: St, b: nat, data: Data)
    requires Inv(s)
    ensures Inv(Store(s, b, data))
  {
    hide Stage;
    var s' := Store(s, b, data);
    forall x: nat ensures RequestAt(s', x) && IdleAt(s', x) { assert RequestAt(s, x) && IdleAt(s, x); }
    forall d: nat ensures DescAt(s', d) { assert DescAt(s, d); }
    forall i: nat ensures HeadAt(s', i) { assert HeadAt(s, i); }
  }

  /** The state after a run; an action that is not enabled changes nothing. */
  function Exec(s: St, acts: seq<Act>): St {
    if acts == [] then s
    else
      var m, a := Exec(s, acts[..|acts| - 1]), acts[|acts| - 1];
      if Enabled(m, a) && Sound(m, a) then Do(m, a) else m
  }

  /** The queue as virtio_disk_init leaves it. */
  predicate Reset(s: St) {
    && Shape(s) && s.avail == 0 && s.used == 0 && s.seen == 0 && s.dev == 0 && s.queue == [] && s.comp == []
       && s.log == []
    && s.busy == {} && s.waiting == map[] && s.filling == None && s.taken == {} && s.ready == None
    && (forall d :: 0 <= d < NUM ==> s.free[d] && s.own[d] == None && s.desc[d] == NO_DESC)
  }

  lemma ResetInv(s: St)
    requires Reset(s)
    ensures Inv(s)
  {
    forall b: nat ensures RequestAt(s, b) && IdleAt(s, b) {}
    forall d: nat ensures DescAt(s, d) {}
    forall i: nat ensures HeadAt(s, i) {}
    forall n: nat ensures RingAt(s.availRing, s.dev, s.queue, n) && RingAt(s.usedRing, s.seen, s.comp, n) {}
  }

  lemma {:induction false} RunInv(s: St, acts: seq<Act>)
    requires Reset(s)
    ensures Inv(Exec(s, acts))
  {
    hide Inv, Do, Reset, Enabled, Sound;
    if acts == [] {
      ResetInv(s);
    } else {
      RunInv(s, acts[..|acts| - 1]);
      var m, a := Exec(s, acts[..|acts| - 1]), acts[|acts| - 1];
      if Enabled(m, a) { DoInv(m, a); }
    }
  }

  /** Over every run, each request is performed exactly once, on its own buffer and as asked, and ends only then. */
  lemma ExactlyOnce(s: St, acts: seq<Act>, b: nat)
    requires Reset(s)
    ensures var e := Exec(s, acts);
            && Stage(e.log, b) != Wrong
            && (b !in e.waiting ==> Stage(e.log, b) == Idle)
            && (b in e.waiting && b !in e.busy ==> Stage(e.log, b) == Done(e.waiting[b].write, e.waiting[b].blockno))
  {
    hide Exec;
    RunInv(s, acts);
    var e := Exec(s, acts);
    assert RequestAt(e, b) && IdleAt(e, b);
  }

  lemma ChainFacts(e: St, b: nat)
    requires Inv(e) && b in e.waiting
    ensures Shape(e) && e.waiting[b].head < NUM && InChain(e, e.waiting[b].head)
    ensures var c := ChainOf(e, e.waiting[b].head);
            |c| == 3 && forall d :: d in c ==> d < NUM && !e.free[d] && e.own[d] == Some(b)
  {
    hide Stage;
    assert RequestAt(e, b);
    var i := e.waiting[b].head;
    var j := e.desc[i].next;
    var k := e.desc[j].next;
    assert DescAt(e, i) && DescAt(e, j) && DescAt(e, k);
  }

  /** Over every run, the descriptors not free are those of the chains, three to a request, no two alike. */
  lemma Chains(s: St, acts: seq<Act>, b: nat, b': nat)
    requires Reset(s)
    ensures var e := Exec(s, acts);
            && Shape(e)
            && (b in e.waiting && b' in e.waiting ==>
                  && e.waiting[b].head < NUM && InChain(e, e.waiting[b].head) && e.waiting[b'].head < NUM
                     && InChain(e, e.waiting[b'].head)
                  && var c, c' := ChainOf(e, e.waiting[b].head), ChainOf(e, e.waiting[b'].head);
                  |c| == 3 && (b != b' ==> c !! c') && forall d :: d in c ==> d < NUM && !e.free[d])
            && (forall d: nat :: d < NUM && !e.free[d] ==>
                  exists b'' :: b'' in e.waiting && e.waiting[b''].head < NUM && InChain(e, e.waiting[b''].head)
                                && d in ChainOf(e, e.waiting[b''].head))
  {
    hide RequestAt, Exec;
    RunInv(s, acts);
    var e := Exec(s, acts);
    if b in e.waiting && b' in e.waiting {
      ChainFacts(e, b);
      ChainFacts(e, b');
    }
    forall d: nat | d < NUM && !e.free[d]
      ensures exists b'' :: b'' in e.waiting && e.waiting[b''].head < NUM && InChain(e, e.waiting[b''].head)
                            && d in ChainOf(e, e.waiting[b''].head)
    {
      assert DescAt(e, d);
      assert e.own[d].value in e.waiting;
    }
  }

  function ChainOf(s: St, i: nat): set<nat>
    requires Shape(s) && i < NUM && InChain(s, i)
  {
    {i, s.desc[i].next, s.desc[s.desc[i].next].next}
  }

  /** Over every run, no entry of a ring is overwritten before it is consumed, no index is mistaken for its partner,
      and the entry the interrupt handler looks at is that of a request done without error. */
  lemma NoOverrun(s: St, acts: seq<Act>)
    requires Reset(s)
    ensures var e := Exec(s, acts);
            && Shape(e) && |e.queue| + (if e.filling.Some? then 1 else 0) <= NUM
               && |e.comp| + (if e.ready.Some? then 1 else 0) <= NUM
            && (e.dev != e.avail <==> e.queue != []) && (e.seen != e.used <==> e.comp != [])
            && (e.comp != [] ==> e.usedRing[e.seen % NUM] == e.comp[0] && e.comp[0] < NUM && e.status[e.comp[0]] == 0)
            && (e.queue != [] ==> e.availRing[e.dev % NUM] == e.queue[0])
  {
    hide Exec;
    RunInv(s, acts);
    var e := Exec(s, acts);
    QueueBound(e);
    IndexTests(e);
    if e.comp != [] {
      FirstOf(e.usedRing, e.seen, e.comp);
      assert HeadAt(e, e.comp[0]);
      assert RequestAt(e, e.own[e.comp[0]].value);
    }
    if e.queue != [] { FirstOf(e.availRing, e.dev, e.queue); }
  }
}
