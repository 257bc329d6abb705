/**
 What the operations on files do to the state as a whole: finding or adding a
 block, writing bytes, truncating, and how much of the log a write needs.
 */
module FsEffects {
  import Bits
  import opened FsSpec
  import LogSpec

  // ----- files as bytes -----

  function ByteAt(s: St, ino: nat, a: nat): Byte {
    var b := Addr(s, ino, a / BSIZE);
    if 0 < b < |s.data| && a % BSIZE < |s.data[b]| then s.data[b][a % BSIZE] else 0
  }

  function Contents(s: St, ino: nat): (c: seq<Byte>)
    requires ino in s.inodes
    ensures |c| == s.inodes[ino].size && forall a :: 0 <= a < |c| ==> c[a] == ByteAt(s, ino, a)
  {
    seq(s.inodes[ino].size, a requires 0 <= a => ByteAt(s, ino, a))
  }

  /** A sequence with w written at position off, extended if need be. */
  function Overwrite(c: seq<Byte>, off: nat, w: seq<Byte>): seq<Byte>
    requires off <= |c|
  {
    c[..off] + w + (if off + |w| < |c| then c[off + |w|..] else [])
  }

  predicate OfFile(o: Owner, ino: nat) {
    (o.DataOf? && o.ino == ino) || o == IndirectOf(ino)
  }

  // ----- finding or adding a block -----

  /** A block in use stays in use as it was; a block taken from the free ones now belongs to ino. */
  predicate BlockKept(s: St, s': St, ino: nat, c: nat) {
    c < |s.own| && c < |s'.own| ==>
      && (s.own[c] != Free ==> s'.own[c] == s.own[c])
      && (c < |s.data| && c < |s'.data| && (s.own[c].DataOf? || s.own[c].Meta?) ==> s'.data[c] == s.data[c])
      && (s.own[c] == Free && s'.own[c] != Free ==>
            OfFile(s'.own[c], ino))
  }

  ghost predicate Kept(s: St, s': St, ino: nat) {
    && |s'.own| == |s.own| && |s'.data| == |s.data|
    && (forall i :: i in s'.inodes <==> i in s.inodes)
    && (forall i :: i in s.inodes ==> s'.inodes[i].size == s.inodes[i].size
                                      && (i != ino ==> s'.inodes[i] == s.inodes[i]))
    && (Indirect(s, ino) != 0 ==> Indirect(s', ino) == Indirect(s, ino))
    && (forall c: nat {:trigger BlockKept(s, s', ino, c)} :: BlockKept(s, s', ino, c))
  }

  lemma KeptSame(s: St, ino: nat)
    ensures Kept(s, s, ino)
  {
    forall c: nat ensures BlockKept(s, s, ino, c) {}
  }

  lemma KeptTrans(a: St, b: St, c: St, ino: nat)
    requires Kept(a, b, ino) && Kept(b, c, ino)
    ensures Kept(a, c, ino)
  {
    forall n: nat ensures BlockKept(a, c, ino, n) {
      assert BlockKept(a, b, ino, n) && BlockKept(b, c, ino, n);
    }
  }

  /** The same, but that contents of files may differ. */
  predicate OwnKept(s: St, s': St, ino: nat, c: nat) {
    c < |s.own| && c < |s'.own| ==>
      && (s.own[c] != Free ==> s'.own[c] == s.own[c])
      && (s.own[c] == Free && s'.own[c] != Free ==> OfFile(s'.own[c], ino))
  }

  ghost predicate Stays(s: St, s': St, ino: nat) {
    && |s'.own| == |s.own| && |s'.data| == |s.data|
    && (forall i :: i in s'.inodes <==> i in s.inodes)
    && (forall i :: i in s.inodes ==> s'.inodes[i].size == s.inodes[i].size
                                      && (i != ino ==> s'.inodes[i] == s.inodes[i]))
    && (Indirect(s, ino) != 0 ==> Indirect(s', ino) == Indirect(s, ino))
    && (forall c: nat {:trigger OwnKept(s, s', ino, c)} :: OwnKept(s, s', ino, c))
  }

  lemma StaysSame(s: St, ino: nat)
    ensures Stays(s, s, ino)
  {
    forall c: nat ensures OwnKept(s, s, ino, c) {}
  }

  lemma StaysAfter(a: St, b: St, c: St, ino: nat)
    requires Stays(a, b, ino) && Kept(b, c, ino)
    ensures Stays(a, c, ino)
  {
    forall n: nat ensures OwnKept(a, c, ino, n) {
      assert OwnKept(a, b, ino, n) && BlockKept(b, c, ino, n);
    }
  }

  lemma StaysWrite(a: St, b: St, ino: nat, n: nat, bytes: Block)
    requires Stays(a, b, ino) && n < |b.data|
    ensures Stays(a, WriteBlock(b, n, bytes), ino)
  {
    var c := WriteBlock(b, n, bytes);
    forall k: nat ensures OwnKept(a, c, ino, k) { assert OwnKept(a, b, ino, k); }
  }

  ghost predicate NoneFree(s: St) {
    Free !in s.own
  }

  /** The effect of bmap: the address of block bn, found or added; or 0, with the disk full. */
  ghost predicate Bmapped(s: St, s': St, ino: nat, bn: nat, b: nat) {
    && Kept(s, s', ino)
    && if b == 0 then SameAddrs(s, s') && NoneFree(s') && Addr(s, ino, bn) == 0
       else
         && AddrSet(s, s', ino, bn, b)
         && (Addr(s, ino, bn) != 0 ==> s' == s)
         && (Addr(s, ino, bn) == 0 ==> b < |s.own| && s.own[b] == Free && b < |s'.data| && s'.data[b] == Zero())
  }

  lemma BmappedFound(s: St, ino: nat, bn: nat)
    requires Addr(s, ino, bn) != 0
    ensures Bmapped(s, s, ino, bn, Addr(s, ino, bn))
  {
    KeptSame(s, ino);
  }

  lemma BmappedFull(s: St, ino: nat, bn: nat)
    requires Addr(s, ino, bn) == 0 && NoneFree(s)
    ensures Bmapped(s, s, ino, bn, 0)
  {
    KeptSame(s, ino);
  }

  lemma BmappedDirect(g: Geometry, s: St, ino: nat, bn: nat, b: nat)
    requires Ok(g, s) && ino in s.inodes && bn < NDIRECT && Addr(s, ino, bn) == 0
    requires b < g.size && Bits.Has(s.bits, b) && s.own[b] == Free
    ensures bn < |s.inodes[ino].addrs|
    ensures var s' := PutDirect(Grab(s, b), ino, bn, b); Ok(g, s') && Bmapped(s, s', ino, bn, b) && b != 0
  {
    hide Zero, Word, Bits.IsSet, BlockAt;
    GrabWf(g, s, b);
    var m := Grab(s, b);
    assert InodeAt(g, s, ino) && InodeAt(g, m, ino);
    PutDirectWf(g, m, ino, bn, b);
    var s' := PutDirect(m, ino, bn, b);
    forall c: nat ensures BlockKept(s, s', ino, c) {}
    forall i: nat, n: nat ensures Addr(s', i, n) == if i == ino && n == bn then b else Addr(s, i, n) {
      assert Addr(m, i, n) == Addr(s, i, n);
    }
  }

  /** The indirect block is added. */
  lemma AddIndirect(g: Geometry, s: St, ino: nat, b: nat)
    requires Ok(g, s) && ino in s.inodes && Indirect(s, ino) == 0
    requires b < g.size && Bits.Has(s.bits, b) && s.own[b] == Free
    ensures NDIRECT < |s.inodes[ino].addrs|
    ensures var s' := PutIndirect(Grab(s, b), ino, b);
            Ok(g, s') && Kept(s, s', ino) && SameAddrs(s, s') && Indirect(s', ino) == b && b != 0
  {
    hide Zero, Word, Bits.IsSet, BlockAt;
    GrabWf(g, s, b);
    var m := Grab(s, b);
    assert InodeAt(g, s, ino) && InodeAt(g, m, ino);
    PutIndirectWf(g, m, ino, b);
    var s' := PutIndirect(m, ino, b);
    forall c: nat ensures BlockKept(s, s', ino, c) {}
    forall i: nat, n: nat ensures Addr(s', i, n) == Addr(s, i, n) {
      assert Addr(m, i, n) == Addr(s, i, n);
    }
  }

  lemma BmappedEntry(g: Geometry, s: St, ino: nat, j: nat, b: nat)
    requires Ok(g, s) && ino in s.inodes && j < NINDIRECT && Addr(s, ino, NDIRECT + j) == 0 && Indirect(s, ino) != 0
    requires b < g.size && Bits.Has(s.bits, b) && s.own[b] == Free
    ensures b != 0 && Indirect(s, ino) < |s.data| && |Grab(s, b).data[Indirect(s, ino)]| == BSIZE
    ensures Grab(s, b).data[Indirect(s, ino)] == s.data[Indirect(s, ino)]
    ensures var s' := PutEntry(Grab(s, b), ino, j, b); Ok(g, s') && Bmapped(s, s', ino, NDIRECT + j, b)
  {
    hide Zero, Word, SetWord, Bits.IsSet;
    GrabWf(g, s, b);
    var m := Grab(s, b);
    assert IndirectAt(g, s, ino) && IndirectAt(g, m, ino) && BlockAt(g, m, Indirect(m, ino));
    PutEntryWf(g, m, ino, j, b);
    var s', bn := PutEntry(m, ino, j, b), NDIRECT + j;
    forall c: nat ensures BlockKept(s, s', ino, c) {}
    forall i: nat, n: nat ensures Addr(s', i, n) == if i == ino && n == bn then b else Addr(s, i, n) {
      assert Addr(m, i, n) == Addr(s, i, n);
    }
  }

  lemma BmappedAfter(a: St, b: St, c: St, ino: nat, bn: nat, n: nat)
    requires Kept(a, b, ino) && SameAddrs(a, b) && Bmapped(b, c, ino, bn, n) && Addr(a, ino, bn) == 0
    requires n < |a.own|
    ensures Bmapped(a, c, ino, bn, n)
  {
    hide Addr;
    KeptTrans(a, b, c, ino);
    assert Addr(b, ino, bn) == Addr(a, ino, bn);
    assert BlockKept(a, b, ino, n);
    forall i: nat, m: nat ensures n == 0 ==> Addr(c, i, m) == Addr(a, i, m) { assert Addr(b, i, m) == Addr(a, i, m); }
    forall i: nat, m: nat
      ensures n != 0 ==> Addr(c, i, m) == if i == ino && m == bn then n else Addr(a, i, m)
    {
      assert Addr(b, i, m) == Addr(a, i, m);
    }
  }

  // ----- writing -----

  /** The first tot bytes of src have been written at off of file ino, and no other byte of any file differs. */
  predicate WroteAt(s: St, s': St, ino: nat, off: nat, src: seq<Byte>, i: nat, a: nat) {
    if i == ino && off <= a < off + |src| then
      Addr(s', i, a / BSIZE) != 0 && ByteAt(s', i, a) == src[a - off]
    else
      Addr(s, i, a / BSIZE) != 0 ==> Addr(s', i, a / BSIZE) == Addr(s, i, a / BSIZE)
                                     && ByteAt(s', i, a) == ByteAt(s, i, a)
  }

  ghost predicate Wrote(s: St, s': St, ino: nat, off: nat, src: seq<Byte>) {
    forall i: nat, a: nat {:trigger WroteAt(s, s', ino, off, src, i, a)} :: WroteAt(s, s', ino, off, src, i, a)
  }

  lemma WroteNone(s: St, ino: nat, off: nat)
    ensures Wrote(s, s, ino, off, [])
  {
    forall i: nat, a: nat ensures WroteAt(s, s, ino, off, [], i, a) {}
  }

  /** Finding or adding a block changes no byte of any file. */
  lemma WroteBmap(g: Geometry, s: St, m: St, s': St, ino: nat, off: nat, src: seq<Byte>, bn: nat, b: nat)
    requires Ok(g, m) && Wrote(s, m, ino, off, src) && Bmapped(m, s', ino, bn, b)
    ensures Wrote(s, s', ino, off, src)
  {
    hide Zero, Word;
    forall i: nat, a: nat ensures WroteAt(s, s', ino, off, src, i, a) {
      assert WroteAt(s, m, ino, off, src, i, a);
      BmapByte(g, m, s', ino, bn, b, i, a);
    }
  }

  lemma BmapByte(g: Geometry, m: St, s': St, ino: nat, bn: nat, b: nat, i: nat, a: nat)
    requires Ok(g, m) && Bmapped(m, s', ino, bn, b)
    ensures var c := Addr(m, i, a / BSIZE);
            c != 0 ==> Addr(s', i, a / BSIZE) == c && ByteAt(s', i, a) == ByteAt(m, i, a)
  {
    hide Zero, Word, Addr;
    var n := a / BSIZE;
    var c := Addr(m, i, n);
    assert Addr(s', i, n) == if b != 0 && i == ino && n == bn then b else c;
    if c != 0 {
      assert PlaceAt(g, m, i, n);
      assert BlockKept(m, s', ino, c);
    }
  }

  function Patch(page: Block, o: nat, w: seq<Byte>): Block
    requires o + |w| <= |page|
  {
    page[..o] + w + page[o + |w|..]
  }

  lemma WroteMore(g: Geometry, s: St, m: St, ino: nat, off: nat, src: seq<Byte>, w: seq<Byte>)
    requires Ok(g, m) && Wrote(s, m, ino, off, src)
    requires var p := off + |src|; |w| <= BSIZE - p % BSIZE && Addr(m, ino, p / BSIZE) != 0
    ensures var p := off + |src|; var b := Addr(m, ino, p / BSIZE);
            && 0 < b < g.size && |m.data[b]| == BSIZE
            && var s' := WriteBlock(m, b, Patch(m.data[b], p % BSIZE, w));
            Ok(g, s') && Wrote(s, s', ino, off, src + w) && SameAddrs(m, s')
  {
    hide Zero, Word, Addr, Patch, Bits.IsSet;
    var p := off + |src|;
    var b := Addr(m, ino, p / BSIZE);
    assert PlaceAt(g, m, ino, p / BSIZE);
    HasBit(g, m, b);
    assert BlockAt(g, m, b);
    PatchSize(m.data[b], p % BSIZE, w);
    var bytes := Patch(m.data[b], p % BSIZE, w);
    WriteBlockWf(g, m, ino, p / BSIZE, bytes);
    var s' := WriteBlock(m, b, bytes);
    var all := src + w;
    forall i: nat, a: nat ensures WroteAt(s, s', ino, off, all, i, a) {
      assert WroteAt(s, m, ino, off, src, i, a);
      PatchByte(g, m, ino, p, w, i, a);
      assert Addr(s', i, a / BSIZE) == Addr(m, i, a / BSIZE);
    }
  }

  lemma HasBit(g: Geometry, s: St, b: nat)
    requires Shape(g, s) && b < g.size
    ensures Bits.Has(s.bits, b)
  {
  }

  lemma PatchSize(page: Block, o: nat, w: seq<Byte>)
    requires o + |w| <= |page|
    ensures |Patch(page, o, w)| == |page|
  {
  }

  /** One block's worth of bytes written: no other place in any file is kept in that block. */
  lemma PatchByte(g: Geometry, m: St, ino: nat, p: nat, w: seq<Byte>, i: nat, a: nat)
    requires Ok(g, m) && |w| <= BSIZE - p % BSIZE && Addr(m, ino, p / BSIZE) != 0
    requires Addr(m, ino, p / BSIZE) < |m.data| && |m.data[Addr(m, ino, p / BSIZE)]| == BSIZE
    requires var s' := WriteBlock(m, Addr(m, ino, p / BSIZE), Patch(m.data[Addr(m, ino, p / BSIZE)], p % BSIZE, w));
             SameAddrs(m, s')
    ensures var b := Addr(m, ino, p / BSIZE); var s' := WriteBlock(m, b, Patch(m.data[b], p % BSIZE, w));
            ByteAt(s', i, a) == if i == ino && p <= a < p + |w| then w[a - p] else ByteAt(m, i, a)
  {
    hide Zero, Word, Addr, Bits.IsSet;
    var n, pn := a / BSIZE, p / BSIZE;
    var b := Addr(m, ino, pn);
    var s' := WriteBlock(m, b, Patch(m.data[b], p % BSIZE, w));
    assert Addr(s', i, n) == Addr(m, i, n);
    assert PlaceAt(g, m, ino, pn) && PlaceAt(g, m, i, n);
    SameBlock(p, a, |w|);
  }

  lemma SameBlock(p: nat, a: nat, n: nat)
    requires n <= BSIZE - p % BSIZE
    ensures p <= a < p + n <==> a / BSIZE == p / BSIZE && p % BSIZE <= a % BSIZE < p % BSIZE + n
    ensures a / BSIZE == p / BSIZE ==> a - p == a % BSIZE - p % BSIZE
  {
  }

  /** Every block below the end of what was written has an address. */
  lemma WroteFull(g: Geometry, s: St, s': St, ino: nat, off: nat, src: seq<Byte>, bn: nat)
    requires Ok(g, s) && Wrote(s, s', ino, off, src) && ino in s.inodes && off <= s.inodes[ino].size
    requires bn * BSIZE < off + |src| || bn * BSIZE < s.inodes[ino].size
    ensures Addr(s', ino, bn) != 0
  {
    hide Addr;
    var size := s.inodes[ino].size;
    if bn * BSIZE < size {
      assert FullAt(s, ino, bn);
      assert WroteAt(s, s', ino, off, src, ino, bn * BSIZE);
    } else {
      var a := if bn * BSIZE < off then off else bn * BSIZE;
      assert WroteAt(s, s', ino, off, src, ino, bn * BSIZE);
    }
  }

  lemma OverwriteAt(c: seq<Byte>, off: nat, w: seq<Byte>, a: nat)
    requires off <= |c|
    ensures |Overwrite(c, off, w)| == if off + |w| > |c| then off + |w| else |c|
    ensures a < |Overwrite(c, off, w)| ==> Overwrite(c, off, w)[a] == if off <= a < off + |w| then w[a - off] else c[a]
  {
  }

  /** Byte for byte, that is an overwrite of the one file and of no other. */
  lemma WroteContents(g: Geometry, s: St, m: St, ino: nat, off: nat, src: seq<Byte>, i: nat)
    requires Ok(g, s) && Wrote(s, m, ino, off, src) && Stays(s, m, ino) && i in s.inodes && ino in s.inodes
             && off <= s.inodes[ino].size
    ensures i in m.inodes && ino in m.inodes
    ensures var end := off + |src|;
            var s' := if end > m.inodes[ino].size then SetSize(m, ino, end) else m;
            Contents(s', i) == if i == ino then Overwrite(Contents(s, i), off, src) else Contents(s, i)
  {
    hide Addr, Word, ByteAt, Overwrite, WroteAt, Stays, Wf;
    StaysSizes(s, m, ino, i);
    var end := off + |src|;
    var s' := if end > m.inodes[ino].size then SetSize(m, ino, end) else m;
    OverwriteAt(Contents(s, ino), off, src, 0);
    var left, right := Contents(s', i), if i == ino then Overwrite(Contents(s, i), off, src) else Contents(s, i);
    forall a | 0 <= a < |left| ensures left[a] == right[a] {
      OverwriteAt(Contents(s, ino), off, src, a);
      SizeByte(m, ino, end, i, a);
      WroteByte(g, s, m, ino, off, src, i, a);
    }
  }

  lemma StaysSizes(s: St, m: St, ino: nat, i: nat)
    requires Stays(s, m, ino) && i in s.inodes && ino in s.inodes
    ensures i in m.inodes && ino in m.inodes && m.inodes[i].size == s.inodes[i].size
            && m.inodes[ino].size == s.inodes[ino].size
  {
  }

  lemma WroteByte(g: Geometry, s: St, m: St, ino: nat, off: nat, src: seq<Byte>, i: nat, a: nat)
    requires Ok(g, s) && Wrote(s, m, ino, off, src) && i in s.inodes
    ensures i == ino && off <= a < off + |src| ==> ByteAt(m, i, a) == src[a - off]
    ensures !(i == ino && off <= a < off + |src|) && a < s.inodes[i].size ==> ByteAt(m, i, a) == ByteAt(s, i, a)
  {
    hide Addr, Word, ByteAt;
    assert WroteAt(s, m, ino, off, src, i, a);
    assert FullAt(s, i, a / BSIZE);
  }

  lemma SizeByte(m: St, ino: nat, size: nat, i: nat, a: nat)
    requires ino in m.inodes
    ensures ByteAt(SetSize(m, ino, size), i, a) == ByteAt(m, i, a)
  {
  }

  // ----- truncating -----

  function NoAddrs(): seq<nat> {
    seq(NDIRECT + 1, _ => 0)
  }

  /** The effect of itrunc: exactly the blocks of the file are freed. */
  ghost predicate Truncated(s: St, s': St, ino: nat) {
    && s'.data == s.data && |s'.own| == |s.own|
    && s'.inodes == s.inodes[ino := Inode(0, NoAddrs())]
    && forall b :: 0 <= b < |s.own| ==> s'.own[b] == if OfFile(s.own[b], ino) then Free else s.own[b]
  }

  // ----- who holds a block -----

  /** No block is between allocation and its address, or between its address and being free. */
  ghost predicate NoneHeld(s: St) {
    Held !in s.own
  }

  /** A bit is set just for the metadata and for the blocks that some address names. */
  lemma BitMeaning(g: Geometry, s: St, b: nat)
    requires Ok(g, s) && NoneHeld(s) && b < g.size
    ensures Bits.Has(s.bits, b)
    ensures Bits.IsSet(s.bits, b) <==>
            b < g.nmeta || (exists ino: nat, bn: nat :: Addr(s, ino, bn) == b)
              || (exists ino: nat :: Indirect(s, ino) == b)
  {
    hide Addr, Indirect, Bits.IsSet;
    HasBit(g, s, b);
    assert BlockAt(g, s, b) && s.own[b] in s.own;
    if b >= g.nmeta {
      forall ino: nat, bn: nat
        ensures Addr(s, ino, bn) == b ==> s.own[b] == DataOf(ino, bn)
      {
        assert PlaceAt(g, s, ino, bn);
      }
      forall ino: nat ensures Indirect(s, ino) == b ==> s.own[b] == IndirectOf(ino) { assert IndirectAt(g, s, ino); }
    }
  }

  /** And no two addresses name the same block. */
  lemma OneHolder(g: Geometry, s: St, ino: nat, bn: nat, ino': nat, bn': nat)
    requires Ok(g, s) && Addr(s, ino, bn) != 0
    ensures Addr(s, ino, bn) == Addr(s, ino', bn') ==> ino == ino' && bn == bn'
    ensures Addr(s, ino, bn) != Indirect(s, ino')
  {
    hide Addr, Indirect;
    assert PlaceAt(g, s, ino, bn) && PlaceAt(g, s, ino', bn') && IndirectAt(g, s, ino');
  }

  /** Writing and truncating leave no block held. */
  lemma NoneHeldKept(s: St, s': St, ino: nat)
    requires NoneHeld(s) && |s'.own| == |s.own|
    requires (forall c: nat {:trigger OwnKept(s, s', ino, c)} :: OwnKept(s, s', ino, c)) || Truncated(s, s', ino)
    ensures NoneHeld(s')
  {
    forall c | 0 <= c < |s'.own| ensures s'.own[c] != Held {
      assert s.own[c] in s.own;
      assert Truncated(s, s', ino) || OwnKept(s, s', ino, c);
    }
  }

  // ----- how much of the log a write needs -----

  /** The blocks that the bytes [off, off + n) lie in. */
  function Span(off: nat, n: nat): nat {
    (off % BSIZE + n + BSIZE - 1) / BSIZE
  }

  /** Each block, a bit map block for each one added (the first is there already if off is inside it)
      and for the indirect block, the indirect block and the inode's block. */
  function Budget(off: nat, n: nat): nat {
    2 * Span(off, n) + if off % BSIZE != 0 then 2 else 3
  }

  /** The limit filewrite puts on one transaction, in bytes. */
  const CHUNK := ((LogSpec.MAXOPBLOCKS - 1 - 1 - 2) / 2) * BSIZE

  /** A chunk of filewrite fits in a transaction, wherever it starts. */
  lemma ChunkFits(off: nat, n: nat)
    requires n <= CHUNK
    ensures Budget(off, n) <= LogSpec.MAXOPBLOCKS
  {
    assert Span(off, n) <= if off % BSIZE == 0 then 3 else 4;
  }
}
