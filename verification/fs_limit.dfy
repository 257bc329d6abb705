/**
 The limit on what a transaction may log is reached. A disk of four bit map
 groups is laid out as mkfs does it. One file ends inside its block 11, four
 blocks are free, one in each group, and every other data block is the only
 block of a file of its own.
 */
module FsLimit {
  import Bits
  import opened FsSpec
  import opened FsEffects
  import opened FsLog
  import opened FsRoom
  import Fs
  import LogSpec

  const SIZE := 32768
  const NMETA := 2085
  const START := 2097

  function Geo(): Geometry {
    Geometry(SIZE, NMETA, 2080, 32)
  }

  predicate IsFree(b: nat) {
    b == START || b == BPB || b == 2 * BPB || b == 3 * BPB
  }

  function OwnerOf(b: nat): Owner {
    if b < NMETA then Meta else if b < START then DataOf(1, b - NMETA) else if IsFree(b) then Free else DataOf(b, 0)
  }

  predicate InUse(i: nat) {
    i == 1 || (START <= i < SIZE && !IsFree(i))
  }

  function AddrOf(i: nat, k: nat): nat {
    if i == 1 then if k < NDIRECT then NMETA + k else 0
    else if k == 0 then i else 0
  }

  function InodeOf(i: nat): (node: Inode)
    ensures |node.addrs| == NDIRECT + 1 && forall k :: 0 <= k <= NDIRECT ==> node.addrs[k] == AddrOf(i, k)
  {
    Inode(if i == 1 then 11 * BSIZE + 1 else 1, seq(NDIRECT + 1, k requires 0 <= k => AddrOf(i, k)))
  }

  function Inums(): set<nat> {
    set i | 0 <= i < SIZE && InUse(i)
  }

  function Ones(): (v: Bits.Bytes)
    ensures |v| == SIZE / 8 && forall i :: 0 <= i < |v| ==> v[i] == 0xff
  {
    seq(SIZE / 8, _ => 0xff)
  }

  function FreeMap(): (v: Bits.Bytes)
    ensures |v| == SIZE / 8
  {
    Bits.Clear(Bits.Clear(Bits.Clear(Bits.Clear(Ones(), START), BPB), 2 * BPB), 3 * BPB)
  }

  lemma FreeMapBit(b: nat)
    requires b < SIZE
    ensures Bits.Has(FreeMap(), b) && (Bits.IsSet(FreeMap(), b) <==> !IsFree(b))
  {
    hide Bits.IsSet, Bits.Clear;
    var v0 := Ones();
    var v1 := Bits.Clear(v0, START);
    var v2 := Bits.Clear(v1, BPB);
    var v3 := Bits.Clear(v2, 2 * BPB);
    Bits.OnesBit(v0, b);
    Bits.ClearBit(v0, START, b);
    Bits.ClearBit(v1, BPB, b);
    Bits.ClearBit(v2, 2 * BPB, b);
    Bits.ClearBit(v3, 3 * BPB, b);
  }

  function Blocks(): (d: seq<Block>)
    ensures |d| == SIZE && forall b :: 0 <= b < SIZE ==> d[b] == Zero()
  {
    seq(SIZE, _ => Zero())
  }

  function Nodes(): (m: map<nat, Inode>)
    ensures m.Keys == Inums() && forall i :: i in m ==> m[i] == InodeOf(i)
  {
    map i | i in Inums() :: InodeOf(i)
  }

  ghost function Owners(): (o: seq<Owner>)
    ensures |o| == SIZE && forall b :: 0 <= b < SIZE ==> o[b] == OwnerOf(b)
  {
    seq(SIZE, b requires 0 <= b => OwnerOf(b))
  }

  ghost function Example(): (s: St)
    ensures |s.data| == SIZE && |s.own| == SIZE && |s.bits| == SIZE / 8
    ensures forall b :: 0 <= b < SIZE ==> s.own[b] == OwnerOf(b) && s.data[b] == Zero()
    ensures s.inodes.Keys == Inums() && forall i :: i in s.inodes ==> s.inodes[i] == InodeOf(i)
  {
    St(FreeMap(), Blocks(), Nodes(), Owners())
  }

  lemma ExampleAddr(i: nat, n: nat)
    ensures Indirect(Example(), i) == 0
    ensures Addr(Example(), i, n) == if i in Inums() && n < NDIRECT then AddrOf(i, n) else 0
  {
    hide Zero, OwnerOf, Example;
    var s := Example();
    if i in Inums() { assert s.inodes[i] == InodeOf(i) && AddrOf(i, NDIRECT) == 0; }
  }

  lemma ExampleOk()
    ensures Ok(Geo(), Example())
  {
    hide Bits.IsSet, Zero, Addr, Indirect, FreeMap, InodeOf;
    var g, s := Geo(), Example();
    forall b: nat ensures BlockAt(g, s, b) {
      if b < SIZE {
        FreeMapBit(b);
        ExampleAddr(1, b - if b < NMETA then b else NMETA);
        ExampleAddr(b, 0);
      }
    }
    forall i: nat ensures InodeAt(g, s, i) && IndirectAt(g, s, i) {
      ExampleAddr(i, 0);
      if i in s.inodes { assert s.inodes[i] == InodeOf(i); InodeSize(i); }
    }
    forall i: nat, n: nat ensures PlaceAt(g, s, i, n) && FullAt(s, i, n) {
      ExampleAddr(i, n);
      if i in s.inodes { assert s.inodes[i] == InodeOf(i); InodeSize(i); }
    }
  }

  lemma InodeSize(i: nat)
    ensures InodeOf(i).size == if i == 1 then 11 * BSIZE + 1 else 1
  {
  }

  /** The write is the worst case: it starts inside block 11 and needs blocks 12, 13 and 14. */
  lemma ExampleWorst()
    ensures NoneHeld(Example()) && Areas(Geo(), 1)
    ensures Worst(Example(), 1, 11 * BSIZE + 1, CHUNK) && Span(11 * BSIZE + 1, CHUNK) == 4
  {
    hide Addr, Indirect, Example;
    var s, off := Example(), 11 * BSIZE + 1;
    assert off / BSIZE == 11 && off % BSIZE == 1 && Span(off, CHUNK) == 4;
    forall bn: nat | 12 <= bn < 15 ensures Addr(s, 1, bn) == 0 { ExampleAddr(1, bn); }
    ExampleAddr(1, 0);
    var f: set<nat> := {START, BPB, 2 * BPB, 3 * BPB};
    assert |f| == 4;
    assert Head(s, f);
    assert Spread(f);
  }

  /** filewrite's largest chunk, written to the example, logs as many blocks as a transaction may. */
  method LimitExample() returns (fs: Fs.FileSystem, r: int)
    ensures r == CHUNK && |fs.logged| == LogSpec.MAXOPBLOCKS
  {
    hide Ok, Worst, WriteLog, ShortOnlyIfFull, Budget, Areas, NoneHeld, FreeMap, Blocks, Nodes, Owners, Inums,
         Fs.Written;
    fs := new Fs.FileSystem(Geo(), Inums());
    fs.bits, fs.data, fs.inodes := FreeMap(), Blocks(), Nodes();
    fs.own := Owners();
    ExampleOk();
    ExampleWorst();
    ExampleFile();
    var off := 11 * BSIZE + 1;
    var src: seq<Byte> := seq(CHUNK, _ => 0);
    r := fs.Writei(1, off, CHUNK, src);
    StoppedFull(fs.S(), 1, off, CHUNK, r);
    Fs.WriteOutcome(Geo(), Example(), fs.S(), {}, fs.logged, 1, off, CHUNK, src, r);
    WorstWhole(Geo(), Example(), fs.S(), {}, fs.logged, 1, off, CHUNK, r);
    LimitReached(Geo(), Example(), fs.S(), fs.logged, 1, off, CHUNK, r);
  }

  lemma ExampleFile()
    ensures 1 in Nodes() && Nodes()[1].size == 11 * BSIZE + 1
  {
    InodeSize(1);
  }
}
