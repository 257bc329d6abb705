/** The data that requests move: what a read finds in its buffer, and what a write leaves on the disk. */
module VdiskData {
  import opened Options
  import opened VdiskSpec
  import opened VdiskSteps

  /** The device has carried out the request for buffer b, which has not ended. */
  predicate Carried(s: St, b: nat) {
    b in s.waiting && Stage(s.log, b).Done?
  }

  /** In state m, the device carries out the request for b. */
  predicate Performs(m: St, a: Act, b: nat) {
    Enabled(m, a) && Sound(m, a) && a.PerformOne? && BufferOf(m, a.h) == b
  }

  /** The request for b was carried out by the step from m to `after`; in state e the data is still what it moved. */
  predicate Moved(m: St, after: St, e: St, b: nat) {
    && b in e.waiting && b in m.waiting && m.waiting[b] == e.waiting[b]
    && var r := e.waiting[b];
    if r.write then Get(m.bufs, b) == Get(e.bufs, b) && Get(after.disk, r.blockno) == Get(e.bufs, b)
    else Get(e.bufs, b) == Get(m.disk, r.blockno)
  }

  /** It was action number k of the run. */
  ghost predicate MovedAt(s: St, acts: seq<Act>, b: nat, k: nat)
    requires k < |acts|
  {
    var m := Exec(s, acts[..k]);
    Performs(m, acts[k], b) && Moved(m, Exec(s, acts[..k + 1]), Exec(s, acts), b)
  }

  lemma ExecLast(s: St, acts: seq<Act>)
    requires acts != []
    ensures var m, a := Exec(s, acts[..|acts| - 1]), acts[|acts| - 1];
            Exec(s, acts) == if Enabled(m, a) && Sound(m, a) then Do(m, a) else m
  {
  }

  /** The device finds the request for the buffer as it was asked. */
  lemma Performing(m: St, a: Act, b: nat)
    requires Inv(m) && Performs(m, a, b)
    ensures b in m.waiting && m.ops[a.h] == Op(m.waiting[b].write, 2 * m.waiting[b].blockno)
  {
    hide Stage;
    assert HeadAt(m, a.h);
    assert RequestAt(m, m.own[a.h].value);
  }

  lemma PerformMoves(m: St, a: Act, b: nat)
    requires Inv(m) && Performs(m, a, b)
    ensures Moved(m, Do(m, a), Do(m, a), b)
  {
    hide Inv;
    Performing(m, a, b);
  }

  /** A step that does not carry out the request for b leaves it and its data alone. */
  lemma StepKeeps(m: St, a: Act, b: nat)
    requires Inv(m) && Enabled(m, a) && Sound(m, a) && Carried(Do(m, a), b)
    requires !Performs(m, a, b)
    ensures Carried(m, b) && Do(m, a).waiting[b] == m.waiting[b] && Get(Do(m, a).bufs, b) == Get(m.bufs, b)
  {
    hide Inv, Stage;
    match a
    case FillIn(x, w, n, i, j, k) => StageNext(m.log, Asked(x, w, n), b);
    case PerformOne(h) => StageNext(m.log, Performed(BufferOf(m, h), m.ops[h].write, m.ops[h].sector / 2), b);
    case End(x) => StageNext(m.log, Finished(x), b);
    case _ =>
  }

  /** Over every run: when a request may end, a read has in its buffer what the disk held when the device carried
      it out, and a write has put on the disk what is in its buffer, which has not changed since. */
  lemma {:induction false} DataMoved(s: St, acts: seq<Act>, b: nat)
    requires Reset(s) && Carried(Exec(s, acts), b)
    ensures exists k :: 0 <= k < |acts| && MovedAt(s, acts, b, k)
  {
    hide Inv, Do, Enabled, Sound, Reset, Stage, Exec, Performs, Moved;
    ExecNone(s);
    if acts == [] {
      ResetIdle(s, b);
    } else {
      var n := |acts| - 1;
      var init := acts[..n];
      RunInv(s, init);
      ExecLast(s, acts);
      var m, a := Exec(s, init), acts[n];
      if Performs(m, a, b) {
        PerformsDo(m, a, b);
        PerformMoves(m, a, b);
        assert acts[..n + 1] == acts;
        assert MovedAt(s, acts, b, n);
      } else {
        if Enabled(m, a) && Sound(m, a) { StepKeeps(m, a, b); }
        DataMoved(s, init, b);
        var k :| 0 <= k < |init| && MovedAt(s, init, b, k);
        assert init[..k] == acts[..k] && init[..k + 1] == acts[..k + 1];
        MovedKept(Exec(s, acts[..k]), Exec(s, acts[..k + 1]), m, Exec(s, acts), b);
        assert MovedAt(s, acts, b, k);
      }
    }
  }

  lemma ExecNone(s: St)
    ensures Exec(s, []) == s
  {
  }

  lemma PerformsDo(m: St, a: Act, b: nat)
    requires Performs(m, a, b)
    ensures Enabled(m, a) && Sound(m, a)
  {
  }

  lemma MovedKept(m: St, after: St, e: St, e': St, b: nat)
    requires Moved(m, after, e, b) && b in e'.waiting && e'.waiting[b] == e.waiting[b]
             && Get(e'.bufs, b) == Get(e.bufs, b)
    ensures Moved(m, after, e', b)
  {
  }

  lemma ResetIdle(s: St, b: nat)
    requires Reset(s)
    ensures !Carried(s, b)
  {
  }

  /** The same of every request that the driver may end: by ExactlyOnce it has been carried out. */
  lemma EndedMoved(s: St, acts: seq<Act>, b: nat)
    requires Reset(s) && Enabled(Exec(s, acts), End(b))
    ensures exists k :: 0 <= k < |acts| && MovedAt(s, acts, b, k)
  {
    hide Exec, MovedAt, Reset;
    ExactlyOnce(s, acts, b);
    DataMoved(s, acts, b);
  }
}
