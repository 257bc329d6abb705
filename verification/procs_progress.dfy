/**
 What the machine of processes, CPUs and locks gets done: how a CPU finds the
 next process to run, and the effect of each system call when the locks it
 meets are free.
 */
module ProcsProgress {
  import opened Options
  import opened Procs
  import opened ProcsInv
  import opened ProcsRuns

  // ----- runs of one CPU -----

  predicate Solo(acts: seq<Act>, c: nat) {
    forall i :: 0 <= i < |acts| ==> acts[i].c == c
  }

  /** Steps of CPU c alone lead from s to s'. */
  ghost predicate Leads(s: St, c: nat, s': St) {
    exists acts :: Solo(acts, c) && Exec(s, acts) == s'
  }

  lemma LeadsNone(s: St, c: nat)
    ensures Leads(s, c, s)
  {
    assert Solo([], c) && Exec(s, []) == s;
  }

  lemma {:induction false} ExecAppend(s: St, a: seq<Act>, b: seq<Act>)
    ensures Exec(s, a + b) == Exec(Exec(s, a), b)
    decreases |b|
  {
    hide Do, Enabled;
    if b == [] {
      assert a + b == a;
    } else {
      var init := b[..|b| - 1];
      ExecAppend(s, a, init);
      assert (a + b)[..|a + b| - 1] == a + init;
    }
  }

  lemma LeadsTrans(s: St, c: nat, m: St, e: St)
    requires Leads(s, c, m) && Leads(m, c, e)
    ensures Leads(s, c, e)
  {
    hide Exec;
    var a :| Solo(a, c) && Exec(s, a) == m;
    var b :| Solo(b, c) && Exec(m, b) == e;
    ExecAppend(s, a, b);
    assert Solo(a + b, c);
  }

  /** One step more. */
  lemma Step(s: St, c: nat, m: St, ch: Choice)
    requires Leads(s, c, m) && Shape(m) && Enabled(m, c)
    ensures Leads(s, c, Do(m, c, ch))
  {
    hide Do, Enabled;
    var acts, e := [Act(c, ch)], Do(m, c, ch);
    assert acts[..0] == [];
    assert Exec(m, []) == m;
    assert Exec(m, acts) == e && Solo(acts, c);
    LeadsTrans(s, c, m, e);
  }

  // ----- the scheduler -----

  /** Nobody holds the lock of a process. */
  ghost predicate Unheld(s: St) {
    forall i: nat :: P(i) !in s.lock
  }

  /** The state when CPU c has switched to process p, with p's lock held. */
  function Dispatched(s: St, c: nat, p: nat): St
    requires Shape(s) && c < |s.cpu| && p < |s.st|
  {
    s.(st := s.st[p := Running], cpu := s.cpu[c := Run(p)], cproc := s.cproc[c := Some(p)], on := s.on[p := Some(c)],
       lock := s.lock[P(p) := c])
  }

  /** Going round the table from i on, p is the first process that is RUNNABLE. */
  predicate FirstMet(s: St, i: nat, p: nat)
    requires Shape(s)
  {
    && p < |s.st| && s.st[p] == Runnable
    && forall j :: 0 <= j < |s.st| && (if i <= p then i <= j < p else i <= j || j < p) ==> s.st[j] != Runnable
  }

  /** n steps of CPU c. */
  function Steps(s: St, c: nat, n: nat): St {
    if n == 0 then s
    else
      var m := Steps(s, c, n - 1);
      if Shape(m) && Enabled(m, c) then Do(m, c, Next) else m
  }

  /** After n steps CPU c runs a process, for the first time. */
  predicate RunsAfter(s: St, c: nat, n: nat)
    requires c < |s.cpu|
  {
    && c < |Steps(s, c, n).cpu| && Steps(s, c, n).cpu[c].Run?
    && forall k: nat :: k < n ==> c < |Steps(s, c, k).cpu| && !Steps(s, c, k).cpu[c].Run?
  }

  lemma {:induction false} StepsAdd(s: St, c: nat, a: nat, b: nat)
    ensures Steps(s, c, a + b) == Steps(Steps(s, c, a), c, b)
  {
    hide Do, Enabled;
    if b > 0 { StepsAdd(s, c, a, b - 1); }
  }

  lemma OneStep(s: St, c: nat)
    requires Shape(s) && Enabled(s, c)
    ensures Steps(s, c, 1) == Do(s, c, Next)
  {
    hide Do, Enabled;
    assert Steps(s, c, 0) == s;
  }

  lemma {:induction false} StepsLead(s: St, c: nat, n: nat)
    ensures Leads(s, c, Steps(s, c, n))
  {
    hide Do, Enabled;
    if n == 0 {
      LeadsNone(s, c);
    } else {
      StepsLead(s, c, n - 1);
      var m := Steps(s, c, n - 1);
      if Shape(m) && Enabled(m, c) { Step(s, c, m, Next); }
    }
  }

  /** A few steps in the scheduler, then what follows. */
  lemma RunsLater(s: St, c: nat, a: nat, n: nat)
    requires c < |s.cpu| && c < |Steps(s, c, a).cpu| && RunsAfter(Steps(s, c, a), c, n)
    requires forall k: nat :: k < a ==> c < |Steps(s, c, k).cpu| && !Steps(s, c, k).cpu[c].Run?
    ensures RunsAfter(s, c, a + n) && Steps(s, c, a + n) == Steps(Steps(s, c, a), c, n)
  {
    hide Steps;
    StepsAdd(s, c, a, n);
    forall k: nat | k < a + n ensures c < |Steps(s, c, k).cpu| && !Steps(s, c, k).cpu[c].Run? {
      if k >= a {
        StepsAdd(s, c, a, k - a);
        assert c < |Steps(Steps(s, c, a), c, k - a).cpu|;
      }
    }
  }

  ghost predicate ScanningAt(s: St, c: nat, i: nat) {
    Shape(s) && c < |s.cpu| && s.cpu[c] == Scan(i) && Unheld(s)
  }

  function Moved(s: St, c: nat, i: nat): St
    requires c < |s.cpu|
  {
    s.(cpu := s.cpu[c := Scan(i)])
  }

  /** The scheduler passes over a process that is not RUNNABLE. */
  lemma PassOver(s: St, c: nat, i: nat)
    requires ScanningAt(s, c, i) && i < |s.st| && s.st[i] != Runnable
    ensures Steps(s, c, 2) == Moved(s, c, i + 1) && !Steps(s, c, 1).cpu[c].Run? && |Steps(s, c, 1).cpu| == |s.cpu|
    ensures Steps(s, c, 0) == s
  {
    OneStep(s, c);
    var m := s.(cpu := s.cpu[c := Test(i)], lock := s.lock[P(i) := c]);
    assert Steps(s, c, 1) == m;
    OneStep(m, c);
    StepsAdd(s, c, 1, 1);
    assert m.lock - {P(i)} == s.lock;
  }

  function Testing(s: St, c: nat, p: nat): St
    requires c < |s.cpu|
  {
    s.(cpu := s.cpu[c := Test(p)], lock := s.lock[P(p) := c])
  }

  function Going(s: St, c: nat, p: nat): St
    requires Shape(s) && c < |s.cpu| && p < |s.st|
  {
    s.(st := s.st[p := Running], cpu := s.cpu[c := Go(p)], cproc := s.cproc[c := Some(p)], lock := s.lock[P(p) := c])
  }

  lemma TestStep(s: St, c: nat, p: nat)
    requires ScanningAt(s, c, p) && p < |s.st|
    ensures Enabled(s, c) && Do(s, c, Next) == Testing(s, c, p)
  {
  }

  lemma GoStep(s: St, c: nat, p: nat)
    requires Shape(s) && c < |s.cpu| && p < |s.st| && s.st[p] == Runnable
    ensures var m := Testing(s, c, p); Shape(m) && Enabled(m, c) && Do(m, c, Next) == Going(s, c, p)
  {
  }

  lemma RunStep(s: St, c: nat, p: nat)
    requires Shape(s) && c < |s.cpu| && p < |s.st|
    ensures var m := Going(s, c, p); Shape(m) && Enabled(m, c) && Do(m, c, Next) == Dispatched(s, c, p)
  {
  }

  /** It takes one that is. */
  lemma TakeUp(s: St, c: nat, p: nat)
    requires ScanningAt(s, c, p) && p < |s.st| && s.st[p] == Runnable
    ensures Steps(s, c, 3) == Dispatched(s, c, p) && RunsAfter(s, c, 3)
  {
    hide Do, Enabled, Steps;
    TestStep(s, c, p);
    OneStep(s, c);
    GoStep(s, c, p);
    OneStep(Testing(s, c, p), c);
    StepsAdd(s, c, 1, 1);
    RunStep(s, c, p);
    OneStep(Going(s, c, p), c);
    StepsAdd(s, c, 2, 1);
    NoSteps(s, c);
  }

  lemma NoSteps(s: St, c: nat)
    ensures Steps(s, c, 0) == s
  {
  }

  lemma WrapAround(s: St, c: nat, i: nat)
    requires ScanningAt(s, c, i) && i >= |s.st|
    ensures Steps(s, c, 1) == Moved(s, c, 0) && Steps(s, c, 0) == s
  {
    OneStep(s, c);
  }

  lemma {:induction false} ScanOn(s: St, c: nat, i: nat, end: nat) returns (n: nat)
    requires ScanningAt(s, c, i) && i <= end <= |s.st| && forall j :: i <= j < end ==> s.st[j] != Runnable
    ensures Steps(s, c, n) == Moved(s, c, end)
    ensures forall k: nat :: k < n ==> c < |Steps(s, c, k).cpu| && !Steps(s, c, k).cpu[c].Run?
    decreases end - i
  {
    hide Do, Enabled, Steps;
    NoSteps(s, c);
    if i == end {
      n := 0;
      assert s.cpu[c := Scan(i)] == s.cpu;
    } else {
      PassOver(s, c, i);
      var m := Moved(s, c, i + 1);
      var rest := ScanOn(m, c, i + 1, end);
      n := 2 + rest;
      StepsAdd(s, c, 2, rest);
      forall k: nat | k < n ensures c < |Steps(s, c, k).cpu| && !Steps(s, c, k).cpu[c].Run? {
        if k >= 2 { StepsAdd(s, c, 2, k - 2); }
      }
    }
  }

  lemma ScanTo(s: St, c: nat, i: nat, p: nat) returns (n: nat)
    requires ScanningAt(s, c, i) && i <= p < |s.st| && s.st[p] == Runnable && forall j ::
             i <= j < p ==> s.st[j] != Runnable
    ensures Steps(s, c, n) == Dispatched(s, c, p) && RunsAfter(s, c, n)
  {
    hide Do, Enabled, Steps, RunsAfter;
    var a := ScanOn(s, c, i, p);
    TakeUp(Moved(s, c, p), c, p);
    RunsLater(s, c, a, 3);
    n := a + 3;
  }

  lemma ScanRound(s: St, c: nat, i: nat) returns (n: nat)
    requires ScanningAt(s, c, i) && forall j :: i <= j < |s.st| ==> s.st[j] != Runnable
    ensures Steps(s, c, n) == Moved(s, c, 0)
    ensures forall k: nat :: k < n ==> c < |Steps(s, c, k).cpu| && !Steps(s, c, k).cpu[c].Run?
  {
    hide Do, Enabled, Steps;
    var a, m := 0, s;
    NoSteps(s, c);
    if i < |s.st| {
      a := ScanOn(s, c, i, |s.st|);
      m := Moved(s, c, |s.st|);
    }
    WrapAround(m, c, if i < |s.st| then |s.st| else i);
    StepsAdd(s, c, a, 1);
    n := a + 1;
  }

  /** The scheduler switches to the first RUNNABLE process it meets. */
  lemma Dispatch(s: St, c: nat, i: nat, p: nat) returns (n: nat)
    requires ScanningAt(s, c, i) && FirstMet(s, i, p)
    ensures Steps(s, c, n) == Dispatched(s, c, p) && RunsAfter(s, c, n)
  {
    hide Do, Enabled, Steps, RunsAfter;
    if i <= p {
      n := ScanTo(s, c, i, p);
    } else {
      var a := ScanRound(s, c, i);
      var b := ScanTo(Moved(s, c, 0), c, 0, p);
      RunsLater(s, c, a, b);
      n := a + b;
    }
  }

  // ----- and to no other -----

  lemma SomeFirst(s: St, i: nat, q: nat) returns (p: nat)
    requires Shape(s) && q < |s.st| && s.st[q] == Runnable
    ensures FirstMet(s, i, p)
  {
    if r: nat :| r < |s.st| && i <= r && s.st[r] == Runnable {
      p := Lowest(s, i, r);
    } else {
      p := Lowest(s, 0, q);
    }
  }

  lemma {:induction false} Lowest(s: St, i: nat, q: nat) returns (p: nat)
    requires Shape(s) && i <= q < |s.st| && s.st[q] == Runnable
    ensures i <= p < |s.st| && s.st[p] == Runnable && forall j :: i <= j < p ==> s.st[j] != Runnable
    decreases q - i
  {
    if s.st[i] == Runnable { p := i; } else { p := Lowest(s, i + 1, q); }
  }

  /** With nothing RUNNABLE the scheduler goes round and round. */
  lemma {:induction false} NeverRuns(s: St, c: nat, i: nat, n: nat) returns (j: nat)
    requires ScanningAt(s, c, i) && forall q :: 0 <= q < |s.st| ==> s.st[q] != Runnable
    ensures Steps(s, c, n) == Moved(s, c, j) || (j < |s.st| && Steps(s, c, n) == Testing(s, c, j))
  {
    hide Do, Enabled;
    if n == 0 {
      j := i;
      assert s.cpu[c := Scan(i)] == s.cpu;
    } else {
      j := NeverRuns(s, c, i, n - 1);
      j := NextScan(s, c, j, Steps(s, c, n - 1));
    }
  }

  lemma NextScan(s: St, c: nat, j: nat, m: St) returns (k: nat)
    requires Shape(s) && c < |s.cpu| && Unheld(s) && forall q :: 0 <= q < |s.st| ==> s.st[q] != Runnable
    requires m == Moved(s, c, j) || (j < |s.st| && m == Testing(s, c, j))
    ensures Shape(m) && Enabled(m, c)
    ensures Do(m, c, Next) == Moved(s, c, k) || (k < |s.st| && Do(m, c, Next) == Testing(s, c, k))
  {
    if m == Moved(s, c, j) {
      k := if j < |s.st| then j else 0;
    } else {
      k := j + 1;
      assert m.lock - {P(j)} == s.lock;
    }
  }

  /** CPU c, scanning from i with the locks of the processes free, runs p next if and only if p is the first RUNNABLE
      process from i on; then p is RUNNING on c, and nothing else has changed but that c holds p's lock. */
  lemma DispatchIff(s: St, c: nat, i: nat, p: nat)
    requires ScanningAt(s, c, i)
    ensures FirstMet(s, i, p) <==> exists n: nat :: RunsAfter(s, c, n) && Steps(s, c, n).cpu[c] == Run(p)
    ensures FirstMet(s, i, p) ==> Leads(s, c, Dispatched(s, c, p))
  {
    hide Do, Enabled, Steps, FirstMet, Leads;
    if FirstMet(s, i, p) {
      FirstIs(s, i, p);
      var n := Dispatch(s, c, i, p);
      StepsLead(s, c, n);
      assert RunsAfter(s, c, n) && Steps(s, c, n).cpu[c] == Run(p);
    }
    if n: nat :| RunsAfter(s, c, n) && Steps(s, c, n).cpu[c] == Run(p) {
      if q: nat :| q < |s.st| && s.st[q] == Runnable {
        var p0 := SomeFirst(s, i, q);
        FirstIs(s, i, p0);
        var n0 := Dispatch(s, c, i, p0);
        assert n == n0;
      } else {
        var j := NeverRuns(s, c, i, n);
        assert false;
      }
    }
  }

  lemma FirstIs(s: St, i: nat, p: nat)
    requires Shape(s) && FirstMet(s, i, p)
    ensures p < |s.st| && s.st[p] == Runnable
  {
  }
}
