/**
 The disk driver and the device on the two sides of a virtqueue (VIRTIO 1.1,
 sections 2.6 and 5.2): descriptors, the available and the used ring with their
 16-bit indices, and the driver's own books. Driver threads, the interrupt
 handler and the device take steps in any order; the driver's are taken with
 vdisk_lock held, the device's at any time.
 */
module VdiskSpec {
  import opened Options

  const NUM := 8
  const WRAP := 65536

  type Data = seq<int>

  /** What a descriptor points to: a request header, a buffer's data or a status byte. */
  datatype Addr = Nowhere | Header(i: nat) | BufData(b: nat) | Status(i: nat)

  datatype Desc = Desc(addr: Addr, chained: bool, deviceWrites: bool, next: nat)

  datatype Op = Op(write: bool, sector: nat)

  datatype Req = Req(head: nat, write: bool, blockno: nat)

  /** What happens to a buffer, in order. */
  datatype Event = Asked(b: nat, write: bool, blockno: nat) | Performed(b: nat, write: bool,
    blockno: nat) | Finished(b: nat)

  /** Memory shared with the device: desc, ops, status, the rings and their indices.
      The driver's books: free, info, seen (its used_idx), and busy (the buffers with b->disk set);
      for the thread that waits for buffer b, waiting[b]; and the thread that holds vdisk_lock, if it
      has filled in a request and not yet told the device.
      The device's: taken up to devIdx, `taken` in progress, `ready` with its used entry written.
      Auxiliary: own (the request a descriptor is in), queue and comp (what is in the rings), log. */
  datatype St = St(desc: seq<Desc>, ops: seq<Op>, status: seq<int>, availRing: seq<nat>, avail: nat, usedRing: seq<nat>,
    used: nat,
                   free: seq<bool>, info: seq<Option<nat>>, seen: nat, busy: set<nat>, waiting: map<nat, Req>,
                     filling: Option<nat>,
                   dev: nat, taken: set<nat>, ready: Option<nat>,
                   bufs: map<nat, Data>, disk: map<nat, Data>,
                   own: seq<Option<nat>>, queue: seq<nat>, comp: seq<nat>, log: seq<Event>)

  const NO_DESC := Desc(Nowhere, false, false, 0)

  predicate Shape(s: St) {
    && |s.desc| == NUM && |s.ops| == NUM && |s.status| == NUM && |s.availRing| == NUM && |s.usedRing| == NUM
    && |s.free| == NUM && |s.info| == NUM && |s.own| == NUM
    && s.avail < WRAP && s.used < WRAP && s.seen < WRAP && s.dev < WRAP
  }

  // ----- the steps -----

  /** virtio_disk_rw, first part: with three descriptors in hand, write the request and the ring entry. */
  function Fill(s: St, b: nat, write: bool, blockno: nat, i: nat, j: nat, k: nat): St
    requires Shape(s) && i < NUM && j < NUM && k < NUM
  {
    s.(free := s.free[i := false][j := false][k := false],
       own := s.own[i := Some(b)][j := Some(b)][k := Some(b)],
       ops := s.ops[i := Op(write, 2 * blockno)],
       desc := s.desc[i := Desc(Header(i), true, false, j)][j := Desc(BufData(b), true, !write, k)][k := Desc(Status(i),
         false, true, 0)],
       status := s.status[i := 0xff],
       info := s.info[i := Some(b)],
       busy := s.busy + {b},
       waiting := s.waiting[b := Req(i, write, blockno)],
       availRing := s.availRing[s.avail % NUM := i],
       filling := Some(b),
       log := s.log + [Asked(b, write, blockno)])
  }

  /** ... then tell the device. */
  function Publish(s: St): St
    requires s.filling.Some? && s.filling.value in s.waiting
  {
    s.(avail := (s.avail + 1) % WRAP, filling := None, queue := s.queue + [s.waiting[s.filling.value].head])
  }

  /** The device takes the next request from the available ring. */
  function DeviceTake(s: St): St
    requires Shape(s) && s.queue != []
  {
    s.(dev := (s.dev + 1) % WRAP, taken := s.taken + {s.availRing[s.dev % NUM]}, queue := s.queue[1..])
  }

  /** The buffer that the descriptors starting at h name, and whether it is to be written to disk. */
  function BufferOf(s: St, h: nat): nat
    requires Shape(s) && h < NUM
  {
    var d := s.desc[h];
    if d.next < NUM && s.desc[d.next].addr.BufData? then s.desc[d.next].addr.b else 0
  }

  function StatusOf(s: St, h: nat): nat
    requires Shape(s) && h < NUM
  {
    var m := s.desc[h].next;
    if m < NUM && s.desc[m].next < NUM && s.desc[s.desc[m].next].addr.Status?
      then s.desc[s.desc[m].next].addr.i else NUM
  }

  function Get(m: map<nat, Data>, k: nat): Data {
    if k in m then m[k] else []
  }

  /** The device carries out request h, one of those it has taken: it follows the chain in memory, moves
      the data, writes the status and the entry in the used ring ... */
  function DevicePerform(s: St, h: nat): St
    requires Shape(s) && h < NUM
  {
    var op, b, st := s.ops[h], BufferOf(s, h), StatusOf(s, h);
    s.(disk := if op.write then s.disk[op.sector / 2 := Get(s.bufs, b)] else s.disk,
       bufs := if op.write then s.bufs else s.bufs[b := Get(s.disk, op.sector / 2)],
       status := if st < NUM then s.status[st := 0] else s.status,
       usedRing := s.usedRing[s.used % NUM := h],
       taken := s.taken - {h}, ready := Some(h),
       log := s.log + [Performed(b, op.write, op.sector / 2)])
  }

  /** ... and then moves the index. */
  function DevicePublish(s: St): St
    requires s.ready.Some?
  {
    s.(used := (s.used + 1) % WRAP, ready := None, comp := s.comp + [s.ready.value])
  }

  /** virtio_disk_intr, for one entry of the used ring. */
  function See(s: St): St
    requires Shape(s)
  {
    var id := s.usedRing[s.seen % NUM];
    s.(busy := if id < NUM && s.info[id].Some? then s.busy - {s.info[id].value} else s.busy,
       seen := (s.seen + 1) % WRAP, comp := if s.comp != [] then s.comp[1..] else [])
  }

  /** The holder of a buffer changes its data, when no request for it is under way. */
  function Store(s: St, b: nat, data: Data): St {
    s.(bufs := s.bufs[b := data])
  }

  /** virtio_disk_rw, last part: free the chain that starts at the thread's first descriptor. */
  function Finish(s: St, b: nat): St
    requires Shape(s) && b in s.waiting && s.waiting[b].head < NUM && InChain(s, s.waiting[b].head)
  {
    var i := s.waiting[b].head;
    var j := s.desc[i].next;
    var k := s.desc[j].next;
    s.(info := s.info[i := None],
       desc := s.desc[i := NO_DESC][j := NO_DESC][k := NO_DESC],
       free := s.free[i := true][j := true][k := true],
       own := s.own[i := None][j := None][k := None],
       waiting := s.waiting - {b},
       log := s.log + [Finished(b)])
  }

  predicate InChain(s: St, i: nat)
    requires Shape(s) && i < NUM
  {
    s.desc[i].next < NUM && s.desc[s.desc[i].next].next < NUM
  }

  // ----- the invariant -----

  /** A request in flight: three descriptors of its own, laid out as section 5.2 asks. */
  predicate RequestAt(s: St, b: nat)
    requires Shape(s)
  {
    b in s.waiting ==>
      var r := s.waiting[b];
      && r.head < NUM && InChain(s, r.head)
      && var i, j := r.head, s.desc[r.head].next;
      var k := s.desc[j].next;
      && i != j && i != k && j != k
      && s.own[i] == Some(b) && s.own[j] == Some(b) && s.own[k] == Some(b)
      && s.desc[i] == Desc(Header(i), true, false, j) && s.desc[j] == Desc(BufData(b), true, !r.write, k)
         && s.desc[k] == Desc(Status(i), false, true, 0)
      && s.ops[i] == Op(r.write, 2 * r.blockno) && s.info[i] == Some(b)
      && (b in s.busy <==> InHands(s, i))
      && (s.status[i] == if i in s.comp || s.ready == Some(i) || b !in s.busy then 0 else 0xff)
      && Stage(s.log, b) == if i in s.comp || s.ready == Some(i) || b !in s.busy
         then Done(r.write, r.blockno) else Wanted(r.write, r.blockno)
  }

  /** The request that starts at descriptor i is still under way. */
  predicate InHands(s: St, i: nat)
    requires Shape(s)
  {
    i in s.queue || i in s.taken || i in s.comp || s.ready == Some(i)
      || (s.filling.Some? && s.filling.value in s.waiting && s.waiting[s.filling.value].head == i)
  }

  /** A buffer with no request has none in its history that is not finished. */
  predicate IdleAt(s: St, b: nat) {
    b !in s.waiting ==> b !in s.busy && Stage(s.log, b) == Idle
  }

  /** A descriptor is free, or one of the three of a request. */
  predicate DescAt(s: St, d: nat)
    requires Shape(s)
  {
    d < NUM ==>
      if s.free[d] then s.own[d] == None && s.desc[d] == NO_DESC
      else
        && s.own[d].Some? && s.own[d].value in s.waiting && s.waiting[s.own[d].value].head < NUM
        && var i := s.waiting[s.own[d].value].head;
        InChain(s, i) && (d == i || d == s.desc[i].next || d == s.desc[s.desc[i].next].next)
  }

  /** What is in a queue or in the hands of the device is the head of a request. */
  predicate HeadAt(s: St, i: nat)
    requires Shape(s)
  {
    InHands(s, i) ==>
      && i < NUM && s.own[i].Some? && s.own[i].value in s.waiting && s.waiting[s.own[i].value].head == i
      && Once(s, i)
  }

  /** A head is in one place. */
  predicate Once(s: St, i: nat)
    requires Shape(s)
  {
    && (i in s.queue ==> i !in s.taken && i !in s.comp && s.ready != Some(i) && !Filling(s, i))
    && (i in s.taken ==> i !in s.comp && s.ready != Some(i) && !Filling(s, i))
    && (i in s.comp ==> s.ready != Some(i) && !Filling(s, i))
    && (s.ready == Some(i) ==> !Filling(s, i))
  }

  predicate Filling(s: St, i: nat) {
    s.filling.Some? && s.filling.value in s.waiting && s.waiting[s.filling.value].head == i
  }

  predicate Distinct(q: seq<nat>) {
    forall i, j :: 0 <= i < j < |q| ==> q[i] != q[j]
  }

  /** The ring, from one index to the other, holds the queue. */
  predicate RingAt(ring: seq<nat>, from: nat, q: seq<nat>, n: nat) {
    n < |q| && |ring| == NUM ==> ring[(from + n) % NUM] == q[n]
  }

  predicate Rings(s: St)
    requires Shape(s)
  {
    && Distinct(s.queue) && Distinct(s.comp)
    && s.avail == (s.dev + |s.queue|) % WRAP && s.used == (s.seen + |s.comp|) % WRAP
    && (s.filling.Some? ==> s.filling.value in s.waiting
                            && s.availRing[s.avail % NUM] == s.waiting[s.filling.value].head)
    && (s.ready.Some? ==> s.usedRing[s.used % NUM] == s.ready.value)
  }

  ghost predicate Inv(s: St) {
    && Shape(s) && Rings(s)
    && (forall b: nat {:trigger RequestAt(s, b)} :: RequestAt(s, b))
    && (forall b: nat {:trigger IdleAt(s, b)} :: IdleAt(s, b))
    && (forall d: nat {:trigger DescAt(s, d)} :: DescAt(s, d))
    && (forall i: nat {:trigger HeadAt(s, i)} :: HeadAt(s, i))
    && (forall n: nat {:trigger RingAt(s.availRing, s.dev, s.queue, n)} :: RingAt(s.availRing, s.dev, s.queue, n))
    && (forall n: nat {:trigger RingAt(s.usedRing, s.seen, s.comp, n)} :: RingAt(s.usedRing, s.seen, s.comp, n))
  }

  // ----- histories -----

  datatype StageOf = Idle | Wanted(write: bool, blockno: nat) | Done(write: bool, blockno: nat) | Wrong

  /** How far the last request for buffer b has come, by the log; Wrong if ever the device touched a buffer
      not asked for, or twice, or not as asked, or a request ended that was not done. */
  function Stage(log: seq<Event>, b: nat): StageOf {
    if log == [] then Idle
    else
      var was, e := Stage(log[..|log| - 1], b), log[|log| - 1];
      if e.b != b then was
      else match e
           case Asked(_, w, k) => if was == Idle then Wanted(w, k) else Wrong
           case Performed(_, w, k) => if was == Wanted(w, k) then Done(w, k) else Wrong
           case Finished(_) => if was.Done? then Idle else Wrong
  }

  lemma StageNext(log: seq<Event>, e: Event, b: nat)
    ensures Stage(log + [e], b) ==
            (var was := Stage(log, b);
             if e.b != b then was
             else match e
                  case Asked(_, w, k) => if was == Idle then Wanted(w, k) else Wrong
                  case Performed(_, w, k) => if was == Wanted(w, k) then Done(w, k) else Wrong
                  case Finished(_) => if was.Done? then Idle else Wrong)
  {
    assert (log + [e])[..|log|] == log;
  }
}
