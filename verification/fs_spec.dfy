/**
 The block layer of the file system: the free bit map, the block addresses held
 by inodes and by indirect blocks, and files as sequences of bytes. `own` says
 what each block is for; the invariant ties it to the bit map and the addresses.
 */
module FsSpec {
  import Bits
  import Disk

  const BSIZE := Disk.BSIZE
  const NDIRECT := 12
  const NINDIRECT := 256
  const MAXFILE := 268
  const BPB := 8192
  const WORD := 4294967296

  type Byte = x: int | 0 <= x < 256

  type Block = seq<Byte>

  /** An inode: size in bytes, direct addresses and, last, the indirect block's. Address 0 is none. */
  datatype Inode = Inode(size: nat, addrs: seq<nat>)

  /** Held blocks are those balloc has handed out and no address refers to yet, and those about to be freed. */
  datatype Owner = Free | Meta | Held | DataOf(ino: nat, bn: nat) | IndirectOf(ino: nat)

  /** The superblock: size of the disk, where data blocks start, and the bit map and inode areas. */
  datatype Geometry = Geometry(size: nat, nmeta: nat, bmapstart: nat, inodestart: nat)

  datatype St = St(bits: Bits.Bytes, data: seq<Block>, inodes: map<nat, Inode>, own: seq<Owner>)

  datatype Place = Place(ino: nat, bn: nat)

  // ----- words in a block -----

  function Word(b: Block, i: nat): nat {
    if 4 * i + 3 < |b| then b[4 * i] + 256 * (b[4 * i + 1] as int) + 65536 * (b[4 * i + 2] as int)
                            + 16777216 * (b[4 * i + 3] as int) else 0
  }

  function SetWord(b: Block, i: nat, w: nat): (b': Block)
    requires w < WORD && 4 * i + 3 < |b|
    ensures |b'| == |b|
  {
    b[4 * i := w % 256][4 * i + 1 := (w / 256) % 256][4 * i + 2 := (w / 65536) % 256][4 * i + 3 := w / 16777216]
  }

  lemma WordSet(b: Block, i: nat, w: nat, j: nat)
    requires w < WORD && 4 * i + 3 < |b|
    ensures Word(SetWord(b, i, w), j) == if i == j then w else Word(b, j)
  {
    if i == j { Bytewise(w); }
  }

  lemma Bytewise(w: nat)
    ensures w % 256 + 256 * ((w / 256) % 256) + 65536 * ((w / 65536) % 256) + 16777216 * (w / 16777216) == w
  {
    assert w / 65536 == w / 256 / 256 && w / 16777216 == w / 65536 / 256;
  }

  function Zero(): (b: Block)
    ensures |b| == BSIZE && forall i :: 0 <= i < BSIZE ==> b[i] == 0
  {
    seq(BSIZE, _ => 0)
  }

  lemma ZeroWord(i: nat)
    ensures Word(Zero(), i) == 0
  {
  }

  // ----- addresses -----

  /** The address of block bn of a file, 0 if it has none. */
  function Addr(s: St, ino: nat, bn: nat): nat {
    if ino !in s.inodes || |s.inodes[ino].addrs| != NDIRECT + 1 then 0
    else if bn < NDIRECT then s.inodes[ino].addrs[bn]
    else if bn < MAXFILE && 0 < s.inodes[ino].addrs[NDIRECT] < |s.data|
         then Word(s.data[s.inodes[ino].addrs[NDIRECT]], bn - NDIRECT)
    else 0
  }

  function Indirect(s: St, ino: nat): nat {
    if ino in s.inodes && |s.inodes[ino].addrs| == NDIRECT + 1 then s.inodes[ino].addrs[NDIRECT] else 0
  }

  // ----- the invariant, one clause per block, inode and address -----

  predicate BlockAt(g: Geometry, s: St, b: nat) {
    b < g.size && b < |s.data| && b < |s.own| && Bits.Has(s.bits, b) ==>
      && |s.data[b]| == BSIZE
      && (Bits.IsSet(s.bits, b) <==> s.own[b] != Free)
      && (s.own[b] == Meta <==> b < g.nmeta)
      && match s.own[b]
         case DataOf(ino, bn) => ino in s.inodes && bn < MAXFILE && Addr(s, ino, bn) == b
         case IndirectOf(ino) => ino in s.inodes && Indirect(s, ino) == b
         case _ => true
  }

  predicate InodeAt(g: Geometry, s: St, ino: nat) {
    ino in s.inodes ==>
      |s.inodes[ino].addrs| == NDIRECT + 1 && s.inodes[ino].size <= MAXFILE * BSIZE
  }

  predicate IndirectAt(g: Geometry, s: St, ino: nat) {
    Indirect(s, ino) != 0 ==> Indirect(s, ino) < g.size && Indirect(s, ino) < |s.own|
                              && s.own[Indirect(s, ino)] == IndirectOf(ino)
  }

  predicate PlaceAt(g: Geometry, s: St, ino: nat, bn: nat) {
    Addr(s, ino, bn) != 0 ==> Addr(s, ino, bn) < g.size && Addr(s, ino, bn) < |s.own|
                              && s.own[Addr(s, ino, bn)] == DataOf(ino, bn)
  }

  /** A file has no holes. */
  predicate FullAt(s: St, ino: nat, bn: nat) {
    ino in s.inodes && bn * BSIZE < s.inodes[ino].size ==> Addr(s, ino, bn) != 0
  }

  predicate Shape(g: Geometry, s: St) {
    && 0 < g.nmeta <= g.size < WORD
    && |s.data| == g.size && |s.own| == g.size && g.size <= 8 * |s.bits|
  }

  /** The invariant, but for the addresses of `skip`, whose blocks are being freed (number MAXFILE stands
      for the indirect block), and for the sizes of the files of `open`, which are being truncated. */
  ghost predicate Wf(g: Geometry, s: St, skip: set<Place>, open: set<nat>) {
    && Shape(g, s)
    && (forall b: nat {:trigger BlockAt(g, s, b)} :: BlockAt(g, s, b))
    && (forall ino: nat {:trigger InodeAt(g, s, ino)} :: InodeAt(g, s, ino))
    && (forall ino: nat {:trigger IndirectAt(g, s, ino)} :: Place(ino, MAXFILE) in skip || IndirectAt(g, s, ino))
    && (forall ino: nat, bn: nat {:trigger PlaceAt(g, s, ino, bn)} :: Place(ino, bn) in skip || PlaceAt(g, s, ino, bn))
    && (forall ino: nat, bn: nat {:trigger FullAt(s, ino, bn)} :: ino in open || FullAt(s, ino, bn))
  }

  ghost predicate Ok(g: Geometry, s: St) {
    Wf(g, s, {}, {})
  }

  // ----- the changes made -----

  /** balloc: a free block is marked in use and zeroed. */
  function Grab(s: St, b: nat): St
    requires b < |s.data| && b < |s.own| && Bits.Has(s.bits, b)
  {
    s.(bits := Bits.Set(s.bits, b), data := s.data[b := Zero()], own := s.own[b := Held])
  }

  ghost predicate SameAddrs(s: St, s': St) {
    forall ino: nat, bn: nat :: Addr(s', ino, bn) == Addr(s, ino, bn)
  }

  lemma GrabWf(g: Geometry, s: St, b: nat)
    requires Ok(g, s) && b < g.size && Bits.Has(s.bits, b) && s.own[b] == Free
    ensures Ok(g, Grab(s, b)) && SameAddrs(s, Grab(s, b)) && b != 0
  {
    hide Bits.IsSet, Zero, Word;
    var s' := Grab(s, b);
    assert BlockAt(g, s, b) && BlockAt(g, s, 0);
    forall ino: nat, bn: nat ensures Addr(s', ino, bn) == Addr(s, ino, bn) { assert IndirectAt(g, s, ino); }
    forall c: nat ensures BlockAt(g, s', c) {
      assert BlockAt(g, s, c);
      if Bits.Has(s.bits, c) { Bits.SetBit(s.bits, b, c); }
    }
    forall ino: nat ensures InodeAt(g, s', ino) { assert InodeAt(g, s, ino); }
    forall ino: nat ensures IndirectAt(g, s', ino) { assert IndirectAt(g, s, ino); }
    forall ino: nat, bn: nat ensures PlaceAt(g, s', ino, bn) { assert PlaceAt(g, s, ino, bn); }
    forall ino: nat, bn: nat ensures FullAt(s', ino, bn) { assert FullAt(s, ino, bn); }
  }

  /** bfree: a block is marked free. */
  function Ungrab(s: St, b: nat): St
    requires b < |s.own| && Bits.Has(s.bits, b)
  {
    s.(bits := Bits.Clear(s.bits, b), own := s.own[b := Free])
  }

  lemma UngrabWf(g: Geometry, s: St, skip: set<Place>, open: set<nat>, b: nat)
    requires Wf(g, s, skip, open) && b < g.size && Bits.Has(s.bits, b) && s.own[b] == Held
    ensures Wf(g, Ungrab(s, b), skip, open) && SameAddrs(s, Ungrab(s, b)) && Bits.IsSet(s.bits, b)
  {
    hide Bits.IsSet, Word;
    var s' := Ungrab(s, b);
    assert BlockAt(g, s, b);
    forall c: nat ensures BlockAt(g, s', c) {
      assert BlockAt(g, s, c);
      if Bits.Has(s.bits, c) { Bits.ClearBit(s.bits, b, c); }
    }
    forall ino: nat ensures InodeAt(g, s', ino) { assert InodeAt(g, s, ino); }
    forall ino: nat
      ensures Place(ino, MAXFILE) in skip || IndirectAt(g, s', ino)
    {
      assert Place(ino, MAXFILE) in skip || IndirectAt(g, s, ino);
    }
    forall ino: nat, bn: nat
      ensures Place(ino, bn) in skip || PlaceAt(g, s', ino, bn)
    {
      assert Place(ino, bn) in skip || PlaceAt(g, s, ino, bn);
    }
    forall ino: nat, bn: nat ensures ino in open || FullAt(s', ino, bn) { assert ino in open || FullAt(s, ino, bn); }
  }

  function SetAddr(s: St, ino: nat, i: nat, b: nat): St
    requires ino in s.inodes && i < |s.inodes[ino].addrs|
  {
    s.(inodes := s.inodes[ino := s.inodes[ino].(addrs := s.inodes[ino].addrs[i := b])])
  }

  /** A direct address is set to a block just allocated. */
  function PutDirect(s: St, ino: nat, i: nat, b: nat): St
    requires ino in s.inodes && i < |s.inodes[ino].addrs| && b < |s.own|
  {
    SetAddr(s, ino, i, b).(own := s.own[b := DataOf(ino, i)])
  }

  /** Only one address differs. */
  ghost predicate AddrSet(s: St, s': St, ino: nat, bn: nat, b: nat) {
    forall i: nat, n: nat :: Addr(s', i, n) == if i == ino && n == bn then b else Addr(s, i, n)
  }

  lemma PutDirectWf(g: Geometry, s: St, ino: nat, i: nat, b: nat)
    requires Ok(g, s) && ino in s.inodes && i < NDIRECT && InodeAt(g, s, ino) && Addr(s, ino, i) == 0
    requires 0 < b < g.size && s.own[b] == Held
    ensures Ok(g, PutDirect(s, ino, i, b)) && AddrSet(s, PutDirect(s, ino, i, b), ino, i, b)
  {
    hide Bits.IsSet, Word;
    var s' := PutDirect(s, ino, i, b);
    assert BlockAt(g, s, b);
    forall j: nat, n: nat ensures Addr(s', j, n) == if j == ino && n == i then b else Addr(s, j, n) {}
    forall c: nat ensures BlockAt(g, s', c) { assert BlockAt(g, s, c); }
    forall j: nat ensures InodeAt(g, s', j) { assert InodeAt(g, s, j); }
    forall j: nat ensures IndirectAt(g, s', j) { assert IndirectAt(g, s, j); }
    forall j: nat, n: nat ensures PlaceAt(g, s', j, n) { assert PlaceAt(g, s, j, n); }
    forall j: nat, n: nat ensures FullAt(s', j, n) { assert FullAt(s, j, n); }
  }

  /** The indirect address is set to a block just allocated, which holds only zeroes. */
  function PutIndirect(s: St, ino: nat, b: nat): St
    requires ino in s.inodes && NDIRECT < |s.inodes[ino].addrs| && b < |s.own|
  {
    SetAddr(s, ino, NDIRECT, b).(own := s.own[b := IndirectOf(ino)])
  }

  lemma PutIndirectWf(g: Geometry, s: St, ino: nat, b: nat)
    requires Ok(g, s) && ino in s.inodes && InodeAt(g, s, ino) && Indirect(s, ino) == 0
    requires 0 < b < g.size && s.own[b] == Held && s.data[b] == Zero()
    ensures Ok(g, PutIndirect(s, ino, b)) && SameAddrs(s, PutIndirect(s, ino, b))
  {
    hide Bits.IsSet, Word, Zero;
    var s' := PutIndirect(s, ino, b);
    assert BlockAt(g, s, b);
    forall j: nat, n: nat ensures Addr(s', j, n) == Addr(s, j, n) { if n >= NDIRECT { ZeroWord(n - NDIRECT); } }
    forall c: nat ensures BlockAt(g, s', c) { assert BlockAt(g, s, c); }
    forall j: nat ensures InodeAt(g, s', j) { assert InodeAt(g, s, j); }
    forall j: nat ensures IndirectAt(g, s', j) { assert IndirectAt(g, s, j); }
    forall j: nat, n: nat ensures PlaceAt(g, s', j, n) { assert PlaceAt(g, s, j, n); }
    forall j: nat, n: nat ensures FullAt(s', j, n) { assert FullAt(s, j, n); }
  }

  /** An entry of the indirect block is set to a block just allocated. */
  function PutEntry(s: St, ino: nat, j: nat, b: nat): St
    requires Indirect(s, ino) < |s.data| && b < |s.own| && b < WORD && 4 * j + 3 < |s.data[Indirect(s, ino)]|
  {
    s.(data := s.data[Indirect(s, ino) := SetWord(s.data[Indirect(s, ino)], j, b)],
      own := s.own[b := DataOf(ino, NDIRECT + j)])
  }

  lemma PutEntryWf(g: Geometry, s: St, ino: nat, j: nat, b: nat)
    requires Ok(g, s) && ino in s.inodes && IndirectAt(g, s, ino) && Indirect(s, ino) != 0
             && BlockAt(g, s, Indirect(s, ino))
    requires j < NINDIRECT && Addr(s, ino, NDIRECT + j) == 0 && 0 < b < g.size && s.own[b] == Held
    ensures Bits.Has(s.bits, Indirect(s, ino)) && |s.data[Indirect(s, ino)]| == BSIZE
    ensures Ok(g, PutEntry(s, ino, j, b)) && AddrSet(s, PutEntry(s, ino, j, b), ino, NDIRECT + j, b)
  {
    hide Bits.IsSet, Word, SetWord;
    var s', ind := PutEntry(s, ino, j, b), Indirect(s, ino);
    assert BlockAt(g, s, b);
    forall i: nat, n: nat ensures Addr(s', i, n) == if i == ino && n == NDIRECT + j then b else Addr(s, i, n) {
      assert IndirectAt(g, s, i) && IndirectAt(g, s, ino);
      if n >= NDIRECT { WordSet(s.data[ind], j, b, n - NDIRECT); }
    }
    forall c: nat ensures BlockAt(g, s', c) { assert BlockAt(g, s, c); }
    forall i: nat ensures InodeAt(g, s', i) { assert InodeAt(g, s, i); }
    forall i: nat ensures IndirectAt(g, s', i) { assert IndirectAt(g, s, i); }
    forall i: nat, n: nat ensures PlaceAt(g, s', i, n) { assert PlaceAt(g, s, i, n); }
    forall i: nat, n: nat ensures FullAt(s', i, n) { assert FullAt(s, i, n); }
  }

  /** A data block of a file gets new contents. */
  function WriteBlock(s: St, b: nat, bytes: Block): St
    requires b < |s.data|
  {
    s.(data := s.data[b := bytes])
  }

  lemma WriteBlockWf(g: Geometry, s: St, ino: nat, bn: nat, bytes: Block)
    requires Ok(g, s) && Addr(s, ino, bn) != 0 && |bytes| == BSIZE
    ensures 0 < Addr(s, ino, bn) < g.size
    ensures var s' := WriteBlock(s, Addr(s, ino, bn), bytes); Ok(g, s') && SameAddrs(s, s')
  {
    hide Bits.IsSet, Word;
    var b := Addr(s, ino, bn);
    assert PlaceAt(g, s, ino, bn);
    var s' := WriteBlock(s, b, bytes);
    assert BlockAt(g, s, b);
    forall i: nat, n: nat ensures Addr(s', i, n) == Addr(s, i, n) { assert IndirectAt(g, s, i); }
    forall c: nat ensures BlockAt(g, s', c) { assert BlockAt(g, s, c); }
    forall i: nat ensures InodeAt(g, s', i) { assert InodeAt(g, s, i); }
    forall i: nat ensures IndirectAt(g, s', i) { assert IndirectAt(g, s, i); }
    forall i: nat, n: nat ensures PlaceAt(g, s', i, n) { assert PlaceAt(g, s, i, n); }
    forall i: nat, n: nat ensures FullAt(s', i, n) { assert FullAt(s, i, n); }
  }

  function SetSize(s: St, ino: nat, size: nat): St
    requires ino in s.inodes
  {
    s.(inodes := s.inodes[ino := s.inodes[ino].(size := size)])
  }

  lemma SetSizeWf(g: Geometry, s: St, open: set<nat>, ino: nat, size: nat)
    requires Wf(g, s, {}, open) && ino in s.inodes && open <= {ino} && size <= MAXFILE * BSIZE
    requires forall bn: nat :: bn * BSIZE < size ==> Addr(s, ino, bn) != 0
    ensures Ok(g, SetSize(s, ino, size)) && SameAddrs(s, SetSize(s, ino, size))
  {
    hide Bits.IsSet, Word;
    var s' := SetSize(s, ino, size);
    forall i: nat, n: nat ensures Addr(s', i, n) == Addr(s, i, n) {}
    forall c: nat ensures BlockAt(g, s', c) { assert BlockAt(g, s, c); }
    forall i: nat ensures InodeAt(g, s', i) { assert InodeAt(g, s, i); }
    forall i: nat ensures IndirectAt(g, s', i) { assert IndirectAt(g, s, i); }
    forall i: nat, n: nat ensures PlaceAt(g, s', i, n) { assert PlaceAt(g, s, i, n); }
    forall i: nat, n: nat ensures FullAt(s', i, n) { assert i in open || FullAt(s, i, n); }
  }

  // ----- truncation -----

  /** A block of a file is about to be freed. */
  function Disown(s: St, b: nat): St
    requires b < |s.own|
  {
    s.(own := s.own[b := Held])
  }

  lemma DisownWf(g: Geometry, s: St, skip: set<Place>, open: set<nat>, ino: nat, bn: nat)
    requires Wf(g, s, skip, open) && Place(ino, bn) !in skip && bn < MAXFILE && Addr(s, ino, bn) != 0
    ensures 0 < Addr(s, ino, bn) < g.size && s.own[Addr(s, ino, bn)] == DataOf(ino, bn)
    ensures Wf(g, Disown(s, Addr(s, ino, bn)), skip + {Place(ino, bn)}, open)
  {
    hide Bits.IsSet, Word;
    assert PlaceAt(g, s, ino, bn);
    var s' := Disown(s, Addr(s, ino, bn));
    forall c: nat ensures BlockAt(g, s', c) { assert BlockAt(g, s, c); }
    forall i: nat ensures InodeAt(g, s', i) { assert InodeAt(g, s, i); }
    forall i: nat
      ensures Place(i, MAXFILE) in skip || IndirectAt(g, s', i)
    {
      assert Place(i, MAXFILE) in skip || IndirectAt(g, s, i);
    }
    forall i: nat, n: nat ensures Place(i, n) in skip + {Place(ino, bn)} || PlaceAt(g, s', i, n) {
      assert Place(i, n) in skip || PlaceAt(g, s, i, n);
    }
    forall i: nat, n: nat ensures i in open || FullAt(s', i, n) { assert i in open || FullAt(s, i, n); }
  }

  lemma DisownIndirectWf(g: Geometry, s: St, skip: set<Place>, open: set<nat>, ino: nat)
    requires Wf(g, s, skip, open) && Place(ino, MAXFILE) !in skip && Indirect(s, ino) != 0
    ensures 0 < Indirect(s, ino) < g.size && s.own[Indirect(s, ino)] == IndirectOf(ino)
    ensures Wf(g, Disown(s, Indirect(s, ino)), skip + {Place(ino, MAXFILE)}, open)
  {
    hide Bits.IsSet, Word;
    assert IndirectAt(g, s, ino);
    var s' := Disown(s, Indirect(s, ino));
    forall c: nat ensures BlockAt(g, s', c) { assert BlockAt(g, s, c); }
    forall i: nat ensures InodeAt(g, s', i) { assert InodeAt(g, s, i); }
    forall i: nat ensures Place(i, MAXFILE) in skip + {Place(ino, MAXFILE)} || IndirectAt(g, s', i) {
      assert Place(i, MAXFILE) in skip || IndirectAt(g, s, i);
    }
    forall i: nat, n: nat ensures Place(i, n) in skip + {Place(ino, MAXFILE)} || PlaceAt(g, s', i, n) {
      assert Place(i, n) in skip || PlaceAt(g, s, i, n);
    }
    forall i: nat, n: nat ensures i in open || FullAt(s', i, n) { assert i in open || FullAt(s, i, n); }
  }

  lemma ClearDirectWf(g: Geometry, s: St, ino: nat, i: nat)
    requires Wf(g, s, {Place(ino, i)}, {ino}) && ino in s.inodes && i < NDIRECT && InodeAt(g, s, ino)
    requires forall b :: 0 <= b < g.size ==> s.own[b] != DataOf(ino, i)
    ensures Wf(g, SetAddr(s, ino, i, 0), {}, {ino}) && AddrSet(s, SetAddr(s, ino, i, 0), ino, i, 0)
  {
    hide Bits.IsSet, Word;
    var s' := SetAddr(s, ino, i, 0);
    forall j: nat, n: nat ensures Addr(s', j, n) == if j == ino && n == i then 0 else Addr(s, j, n) {}
    forall c: nat ensures BlockAt(g, s', c) { assert BlockAt(g, s, c); }
    forall j: nat ensures InodeAt(g, s', j) { assert InodeAt(g, s, j); }
    forall j: nat ensures IndirectAt(g, s', j) { assert IndirectAt(g, s, j); }
    forall j: nat, n: nat ensures PlaceAt(g, s', j, n) { assert Place(j, n) in {Place(ino, i)} || PlaceAt(g, s, j, n); }
    forall j: nat, n: nat ensures j in {ino} || FullAt(s', j, n) { assert j in {ino} || FullAt(s, j, n); }
  }

  lemma ClearIndirectWf(g: Geometry, s: St, skip: set<Place>, ino: nat)
    requires Wf(g, s, skip, {ino}) && ino in s.inodes && InodeAt(g, s, ino)
    requires forall p :: p in skip ==> p.ino == ino && NDIRECT <= p.bn
    requires forall b :: 0 <= b < g.size ==> s.own[b] != IndirectOf(ino) && !(s.own[b].DataOf? && s.own[b].ino == ino)
    ensures Wf(g, SetAddr(s, ino, NDIRECT, 0), {}, {ino})
  {
    hide Bits.IsSet, Word;
    var s' := SetAddr(s, ino, NDIRECT, 0);
    forall j: nat, n: nat ensures Addr(s', j, n) == if j == ino && n >= NDIRECT then 0 else Addr(s, j, n) {}
    forall c: nat ensures BlockAt(g, s', c) { assert BlockAt(g, s, c); }
    forall j: nat ensures InodeAt(g, s', j) { assert InodeAt(g, s, j); }
    forall j: nat ensures IndirectAt(g, s', j) { assert Place(j, MAXFILE) in skip || IndirectAt(g, s, j); }
    forall j: nat, n: nat ensures PlaceAt(g, s', j, n) { assert Place(j, n) in skip || PlaceAt(g, s, j, n); }
    forall j: nat, n: nat ensures j in {ino} || FullAt(s', j, n) { assert j in {ino} || FullAt(s, j, n); }
  }
}
