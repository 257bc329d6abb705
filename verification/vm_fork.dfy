/**
 What fork promises of memory: after uvmcopy parent and child agree byte for
 byte and flag for flag, and from then on neither sees what the other writes.
 */
module VmFork {
  import opened Options
  import opened Sv39
  import opened VmSpec
  import opened VmEffects
  import opened Vm

  /** What uvmcopy starts from and, if it succeeds, ends with. */
  ghost predicate Forked(a: St, b: St, from: nat, to: nat, sz: nat) {
    && Wf(a, {}) && Wf(b, {}) && PagesFor(sz) <= MAXPAGES
    && (forall u: nat :: u < PagesFor(sz) ==> Where(from, u) in a.leaf && Flat(a, to, u) == 0)
    && Populated(a, b, to, 0, FlagsOf(a, from, PagesFor(sz)), BytesOf(a, from, PagesFor(sz)))
  }

  /** One page of the parent, and the child's copy of it. */
  lemma PageAgrees(a: St, b: St, from: nat, to: nat, sz: nat, v: nat)
    requires Forked(a, b, from, to, sz) && v < PagesFor(sz)
    ensures from != to && Where(from, v) in b.leaf && Where(to, v) in b.leaf
            && b.leaf[Where(from, v)] != b.leaf[Where(to, v)]
    ensures Flat(b, from, v) == Flat(a, from, v) && Flags(Flat(b, to, v)) == Flags(Flat(b, from, v))
    ensures Bytes(b, Where(to, v)) == Bytes(b, Where(from, v)) == Bytes(a, Where(from, v))
            && |Bytes(b, Where(to, v))| == PGSIZE
  {
    hide Wf, Flat, Flags, Ppn, Pte, FlagsOf, BytesOf, LeafOk;
    var x, y, n := Where(from, v), Where(to, v), PagesFor(sz);
    MappedUser(a, from, v);
    ZeroInvalid();
    assert from != to;
    UserFacts(a, x);
    UserFacts(b, x);
    UserFacts(b, y);
    assert !Within(x, to, 0, n) && PageKept(a, b, a.leaf[x]);
    FlagsAt(a, from, n, v);
    assert Fresh(a, b, Where(to, 0 + v), FlagsOf(a, from, n)[v], BytesOf(a, from, n)[v]);
    PteRoundTrip(b.leaf[y], FlagsOf(a, from, n)[v]);
  }

  lemma FlagsAt(s: St, r: nat, n: nat, i: nat)
    requires i < n
    ensures FlagsOf(s, r, n)[i] == Flags(Flat(s, r, i)) && BytesOf(s, r, n)[i] == Bytes(s, Where(r, i))
  {
  }

  /** Byte for byte and flag for flag, parent and child agree, on pages of their own. */
  lemma ForkAgrees(a: St, b: St, from: nat, to: nat, sz: nat, va: nat)
    requires Forked(a, b, from, to, sz) && va / PGSIZE < PagesFor(sz)
    ensures ByteAt(b, to, va) == ByteAt(b, from, va) == ByteAt(a, from, va) && ByteAt(b, to, va).Some?
    ensures Flags(Flat(b, to, va / PGSIZE)) == Flags(Flat(b, from, va / PGSIZE)) == Flags(Flat(a, from, va / PGSIZE))
    ensures Readable(b, to, va / PGSIZE) <==> Readable(b, from, va / PGSIZE)
    ensures Writable(b, to, va / PGSIZE) <==> Writable(b, from, va / PGSIZE)
  {
    hide Wf, Flat, Flags, Ppn, Populated, Bit, Valid, MapsPage, Bytes, Forked;
    var v := va / PGSIZE;
    PageAgrees(a, b, from, to, sz, v);
    ForkSize(a, b, from, to, sz);
    PteDecode(Flat(b, to, v));
    PteDecode(Flat(b, from, v));
  }

  lemma ForkSize(a: St, b: St, from: nat, to: nat, sz: nat)
    requires Forked(a, b, from, to, sz)
    ensures PagesFor(sz) <= MAXPAGES
  {
  }

  // ----- what is written afterwards -----

  /** A copyout through the table with root `root`. */
  datatype Write = Write(root: nat, va: nat, data: seq<bv8>)

  /** A run of writes through any tables, in any order. */
  ghost predicate Writes(ss: seq<St>, ws: seq<Write>) {
    |ss| == |ws| + 1 && forall i :: 0 <= i < |ws| ==> Written(ss[i], ss[i + 1], ws[i].root, ws[i].va, ws[i].data)
  }

  /** The writes through one table. */
  function Only(ws: seq<Write>, r: nat): seq<Write> {
    if ws == [] then [] else Only(ws[..|ws| - 1], r) + if ws[|ws| - 1].root == r then [ws[|ws| - 1]] else []
  }

  /** A byte after writes that all reach it: the last one that covers it decides. */
  function Latest(ws: seq<Write>, a: nat, was: Option<bv8>): Option<bv8> {
    if ws == [] then was
    else
      var w := ws[|ws| - 1];
      if w.va <= a < w.va + |w.data| then Some(w.data[a - w.va]) else Latest(ws[..|ws| - 1], a, was)
  }

  lemma LatestMore(ws: seq<Write>, w: Write, a: nat, was: Option<bv8>)
    ensures Latest(ws + [w], a, was) == if w.va <= a < w.va + |w.data|
            then Some(w.data[a - w.va]) else Latest(ws, a, was)
  {
    assert (ws + [w])[..|ws|] == ws;
  }

  /** What a process reads is decided by its own writes alone, and which pages it may use by no write. */
  lemma {:induction false} OwnWritesOnly(ss: seq<St>, ws: seq<Write>, r: nat, a: nat)
    requires Writes(ss, ws)
    ensures ByteAt(ss[|ws|], r, a) == Latest(Only(ws, r), a, ByteAt(ss[0], r, a))
    ensures Readable(ss[|ws|], r, a / PGSIZE) <==> Readable(ss[0], r, a / PGSIZE)
    decreases |ws|
  {
    hide ByteAt, Flat, Bit, Valid, Readable, Latest;
    if ws == [] {
      LatestNone(a, ByteAt(ss[0], r, a));
    } else {
      var n := |ws| - 1;
      OwnWritesOnly(ss[..n + 1], ws[..n], r, a);
      assert Written(ss[n], ss[n + 1], ws[n].root, ws[n].va, ws[n].data);
      SameReadable(ss[n], ss[n + 1], r, a / PGSIZE);
      LatestMore(Only(ws[..n], r), ws[n], a, ByteAt(ss[0], r, a));
      assert Only(ws[..n], r) + [] == Only(ws[..n], r);
    }
  }

  lemma LatestNone(a: nat, was: Option<bv8>)
    ensures Latest([], a, was) == was
  {
  }

  lemma SameReadable(s: St, s': St, r: nat, v: nat)
    requires s'.leaf == s.leaf && SameFlat(s, s')
    ensures Readable(s', r, v) <==> Readable(s, r, v)
  {
    hide Flat, Bit;
    assert Flat(s', r, v) == Flat(s, r, v);
  }

  /** After a fork, in any run of writes by the two and by others, each of the two reads the parent's old
      memory under its own writes. */
  lemma ForkIsolates(a: St, ss: seq<St>, ws: seq<Write>, from: nat, to: nat, sz: nat, va: nat)
    requires Writes(ss, ws) && Forked(a, ss[0], from, to, sz) && va / PGSIZE < PagesFor(sz)
    ensures ByteAt(ss[|ws|], from, va) == Latest(Only(ws, from), va, ByteAt(a, from, va))
    ensures ByteAt(ss[|ws|], to, va) == Latest(Only(ws, to), va, ByteAt(a, from, va))
    ensures Readable(ss[|ws|], to, va / PGSIZE) <==> Readable(ss[|ws|], from, va / PGSIZE)
  {
    hide ByteAt, Readable, Writable, Written, Forked, Latest, Only, Flags, Flat;
    ForkAgrees(a, ss[0], from, to, sz, va);
    OwnWritesOnly(ss, ws, from, va);
    OwnWritesOnly(ss, ws, to, va);
  }

  /** Copying in through a table returns the same, success and bytes, after any writes through others. */
  lemma CopiedKept(ss: seq<St>, ws: seq<Write>, r: nat, va: nat, len: nat)
    requires Writes(ss, ws) && forall i :: 0 <= i < |ws| ==> ws[i].root != r
    ensures Copied(ss[|ws|], r, va, len) == Copied(ss[0], r, va, len)
  {
    hide ByteAt, Readable, Written, Latest;
    OnlyNone(ws, r);
    forall a: nat
      ensures ByteAt(ss[|ws|], r, a) == ByteAt(ss[0], r, a)
              && (Readable(ss[|ws|], r, a / PGSIZE) <==> Readable(ss[0], r, a / PGSIZE))
    {
      OwnWritesOnly(ss, ws, r, a);
      LatestNone(a, ByteAt(ss[0], r, a));
    }
    var x, y := Copied(ss[|ws|], r, va, len), Copied(ss[0], r, va, len);
    assert x.Some? <==> y.Some?;
    if x.Some? { assert x.value == y.value; }
  }

  lemma {:induction false} OnlyNone(ws: seq<Write>, r: nat)
    requires forall i :: 0 <= i < |ws| ==> ws[i].root != r
    ensures Only(ws, r) == []
  {
    if ws != [] { OnlyNone(ws[..|ws| - 1], r); }
  }

  /** What a process wrote last is what it reads back, whatever others write afterwards. */
  lemma ReadsBack(ss: seq<St>, ws: seq<Write>, i: nat, a: nat)
    requires Writes(ss, ws) && i < |ws| && ws[i].va <= a < ws[i].va + |ws[i].data|
    requires forall j :: i < j < |ws| ==> ws[j].root != ws[i].root
    ensures ByteAt(ss[|ws|], ws[i].root, a) == Some(ws[i].data[a - ws[i].va])
  {
    hide ByteAt, Readable, Latest;
    var r := ws[i].root;
    var ss', ws' := ss[i + 1..], ws[i + 1..];
    assert Writes(ss', ws');
    assert Written(ss[i], ss[i + 1], r, ws[i].va, ws[i].data);
    OnlyNone(ws', r);
    OwnWritesOnly(ss', ws', r, a);
    LatestNone(a, ByteAt(ss'[0], r, a));
  }
}
