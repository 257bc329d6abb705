/**
 The block and inode operations of fs.c and the chunked write of file.c.
 Blocks are seen through the buffer cache and the log, so that reading a block
 gives what was last written to it; `logged` collects the blocks handed to
 log_write since the transaction began.
 */
module Fs {
  import opened Options
  import Bits
  import opened FsSpec
  import opened FsEffects
  import opened FsLog
  import opened FsRoom
  import LogSpec

  lemma BitTest(v: Bits.Bytes, i: nat)
    requires Bits.Has(v, i)
    ensures v[i / 8] & Bits.Mask(i % 8) == 0 <==> !Bits.IsSet(v, i)
  {
  }

  lemma ZeroBits(v: Bits.Bytes)
    requires forall i :: 0 <= i < |v| ==> v[i] == 0
    ensures forall b: nat :: Bits.Has(v, b) ==> !Bits.IsSet(v, b)
  {
    forall b: nat | Bits.Has(v, b) ensures !Bits.IsSet(v, b) { Bits.ZeroBit(v, b); }
  }

  lemma FreshOk(g: Geometry, s: St)
    requires Shape(g, s) && (forall b :: 0 <= b < g.size ==> |s.data[b]| == BSIZE && s.own[b] == if b < g.nmeta
                                                             then Meta else Free)
    requires forall b: nat :: Bits.Has(s.bits, b) ==> (Bits.IsSet(s.bits, b) <==> b < g.nmeta)
    requires forall i :: i in s.inodes ==> s.inodes[i] == Inode(0, NoAddrs())
    ensures Ok(g, s)
  {
    hide Bits.IsSet, Word;
    forall i: nat, n: nat ensures Addr(s, i, n) == 0 && Indirect(s, i) == 0 {}
    forall b: nat ensures BlockAt(g, s, b) {}
    forall i: nat ensures InodeAt(g, s, i) && IndirectAt(g, s, i) {}
    forall i: nat, n: nat ensures PlaceAt(g, s, i, n) && FullAt(s, i, n) {}
  }

  /** An open file: the inode and the offset of the next read or write. */
  class OpenFile {
    const ino: nat
    var off: nat

    constructor (ino: nat)
      ensures this.ino == ino && off == 0
    {
      this.ino := ino;
      off := 0;
    }
  }

  class FileSystem {
    const g: Geometry
    var bits: Bits.Bytes
    var data: seq<Block>
    var inodes: map<nat, Inode>
    var dinodes: map<nat, Inode>
    var logged: set<nat>
    ghost var own: seq<Owner>

    ghost function S(): St
      reads this
    {
      St(bits, data, inodes, own)
    }

    /** The file system as mkfs lays it out, before any file has contents: the metadata blocks are in use. */
    constructor (geo: Geometry, inums: set<nat>)
      requires 0 < geo.nmeta <= geo.size < WORD
      ensures g == geo && Ok(g, S()) && inodes.Keys == inums && dinodes == inodes && logged == {}
      ensures forall i :: i in inums ==> inodes[i] == Inode(0, NoAddrs())
      ensures forall b :: 0 <= b < geo.size ==> own[b] == if b < geo.nmeta then Meta else Free
    {
      g := geo;
      var map0: Bits.Bytes := seq((geo.size + 7) / 8, _ => 0);
      ghost var own0: seq<Owner> := seq(geo.size, b => if b < geo.nmeta then Meta else Free);
      var i := 0;
      ZeroBits(map0);
      while i < geo.nmeta
        invariant i <= geo.nmeta && |map0| == (geo.size + 7) / 8
        invariant forall b: nat :: Bits.Has(map0, b) ==> (Bits.IsSet(map0, b) <==> b < i)
      {
        forall b: nat | Bits.Has(map0, b)
          ensures Bits.IsSet(Bits.Set(map0, i), b) <==> b < i + 1
        {
          Bits.SetBit(map0, i, b);
        }
        map0 := Bits.Set(map0, i);
        i := i + 1;
      }
      bits := map0;
      data := seq(geo.size, _ => Zero());
      inodes := map j | j in inums :: Inode(0, NoAddrs());
      dinodes := map j | j in inums :: Inode(0, NoAddrs());
      logged := {};
      own := own0;
      new;
      FreshOk(g, S());
    }

    /** balloc: the first free block, zeroed; 0 if there is none. */
    method Balloc() returns (r: nat)
      requires Ok(g, S())
      modifies this`bits, this`data, this`own, this`logged
      ensures Ok(g, S())
      ensures r == 0 ==> S() == old(S()) && logged == old(logged) && NoneFree(S())
      ensures r != 0 ==>
                && r < g.size && Bits.Has(old(bits), r) && Lowest(old(S()), r)
                && S() == Grab(old(S()), r) && logged == old(logged) + {Bblock(g, r), r}
    {
      hide Ok, Bits.IsSet, Bits.Mask, Zero, Grab;
      ShapeFacts(g, S());
      var b := 0;
      while b < g.size
        invariant S() == old(S()) && logged == old(logged)
        invariant forall c :: 0 <= c < b && c < g.size ==> own[c] != Free
      {
        var bi := 0;
        while bi < BPB && b + bi < g.size
          invariant S() == old(S()) && logged == old(logged)
          invariant bi <= BPB && forall c :: 0 <= c < b + bi && c < g.size ==> own[c] != Free
        {
          BitFacts(g, S(), b + bi);
          BitTest(bits, b + bi);
          if bits[(b + bi) / 8] & Bits.Mask((b + bi) % 8) == 0 {
            GrabWf2(g, S(), b + bi);
            bits := Bits.Set(bits, b + bi);
            logged := logged + {Bblock(g, b + bi)};
            data := data[b + bi := Zero()];
            logged := logged + {b + bi};
            own := own[b + bi := Held];
            GrabFacts(old(S()), b + bi);
            return b + bi;
          }
          bi := bi + 1;
        }
        b := b + BPB;
      }
      return 0;
    }

    /** bfree: a block in use becomes free. */
    method Bfree(b: nat, ghost skip: set<Place>, ghost open: set<nat>)
      requires Wf(g, S(), skip, open) && b < g.size && own[b] == Held
      modifies this`bits, this`own, this`logged
      ensures Bits.Has(old(bits), b) && S() == Ungrab(old(S()), b) && Wf(g, S(), skip, open)
      ensures logged == old(logged) + {Bblock(g, b)}
    {
      hide Wf, Bits.IsSet, Bits.Mask;
      WfShape(g, S(), skip, open);
      HasBit(g, S(), b);
      UngrabWf(g, S(), skip, open, b);
      BitTest(bits, b);
      assert bits[b / 8] & Bits.Mask(b % 8) != 0;             // panic: freeing free block
      bits := Bits.Clear(bits, b);
      logged := logged + {Bblock(g, b)};
      own := own[b := Free];
    }

    /** bmap, first part: a block listed in the inode. */
    method BmapDirect(ino: nat, bn: nat) returns (b: nat)
      requires Ok(g, S()) && ino in inodes && bn < NDIRECT
      modifies this`bits, this`data, this`own, this`logged, this`inodes
      ensures Ok(g, S()) && Bmapped(old(S()), S(), ino, bn, b)
              && BmapLog(g, old(S()), S(), old(logged), logged, ino, bn)
    {
      hide Ok, Bmapped, Zero, NoneFree, Bblock, BmapLog, Grab, PutDirect;
      ghost var s0 := S();
      InodeFacts(g, S(), ino);
      b := inodes[ino].addrs[bn];
      if b == 0 {
        b := Balloc();
        if b == 0 {
          BmappedFull(s0, ino, bn);
          BmapLogNone(g, s0, logged, ino, bn);
          return;
        }
        BmappedDirect(g, s0, ino, bn, b);
        GrabFacts(s0, b);
        inodes := inodes[ino := inodes[ino].(addrs := inodes[ino].addrs[bn := b])];
        own := own[b := DataOf(ino, bn)];
        PutDirectFacts(Grab(s0, b), ino, bn, b);
        BmapLogDirect(g, s0, old(logged), ino, bn, b);
      } else {
        BmappedFound(s0, ino, bn);
        BmapLogNone(g, s0, logged, ino, bn);
      }
    }

    /** bmap, second part: the indirect block, added if need be. */
    method LoadIndirect(ino: nat, ghost bn: nat) returns (addr: nat)
      requires Ok(g, S()) && ino in inodes && NDIRECT <= bn
      modifies this`bits, this`data, this`own, this`logged, this`inodes
      ensures Ok(g, S()) && Kept(old(S()), S(), ino) && SameAddrs(old(S()), S()) && Indirect(S(), ino) == addr
      ensures addr == 0 ==> S() == old(S()) && NoneFree(S()) && logged == old(logged)
      ensures Indirect(old(S()), ino) != 0 ==> S() == old(S())
      ensures BmapLog(g, old(S()), S(), old(logged), logged, ino, bn)
    {
      hide Ok, Kept, SameAddrs, Zero, NoneFree, Bblock, BmapLog, Grab, PutIndirect;
      ghost var s0 := S();
      InodeFacts(g, S(), ino);
      addr := inodes[ino].addrs[NDIRECT];
      KeptSame(s0, ino);
      SameAddrsSelf(s0);
      BmapLogNone(g, s0, logged, ino, bn);
      if addr == 0 {
        addr := Balloc();
        if addr == 0 {
          return;
        }
        AddIndirect(g, s0, ino, addr);
        GrabFacts(s0, addr);
        inodes := inodes[ino := inodes[ino].(addrs := inodes[ino].addrs[NDIRECT := addr])];
        own := own[addr := IndirectOf(ino)];
        PutIndirectFacts(Grab(s0, addr), ino, addr);
        BmapLogIndirect(g, s0, old(logged), ino, bn, addr);
      }
    }

    /** bmap: the address of block bn of a file, added if need be; 0 if the disk is full. */
    method Bmap(ino: nat, bn: nat) returns (b: nat)
      requires Ok(g, S()) && ino in inodes && bn < MAXFILE
      modifies this`bits, this`data, this`own, this`logged, this`inodes
      ensures Ok(g, S()) && Bmapped(old(S()), S(), ino, bn, b)
              && BmapLog(g, old(S()), S(), old(logged), logged, ino, bn)
    {
      hide Ok, Bmapped, Kept, SameAddrs, Zero, Word, SetWord, NoneFree, Bblock, BmapLog, Addr, Grab, PutEntry;
      if bn < NDIRECT {
        b := BmapDirect(ino, bn);
        return;
      }
      ghost var s0 := S();
      var j := bn - NDIRECT;
      var addr := LoadIndirect(ino, bn);
      ghost var s1, log1 := S(), logged;
      KeptInode(s0, s1, ino);
      if addr == 0 {
        NoIndirect(s0, ino, bn);
        BmappedFull(s0, ino, bn);
        return 0;
      }
      AddrFacts(g, s0, s1, ino, bn);
      b := Word(data[addr], j);
      if b == 0 {
        b := Balloc();
        if b != 0 {
          BmappedEntry(g, s1, ino, j, b);
          GrabFacts(s1, b);
          data := data[addr := SetWord(data[addr], j, b)];
          logged := logged + {addr};
          own := own[b := DataOf(ino, bn)];
          PutEntryFacts(Grab(s1, b), ino, j, b);
          BmapLogEntry(g, s1, log1, ino, j, b);
          BmapLogAfter(g, s0, s1, S(), old(logged), log1, logged, ino, bn, b);
        } else {
          BmappedFull(s1, ino, bn);
        }
        BmappedAfter(s0, s1, S(), ino, bn, b);
      } else {
        Found(g, s0, s1, ino, bn);
        BmappedFound(s0, ino, bn);
      }
    }

    /** iupdate: write the inode to disk. */
    method Iupdate(ino: nat)
      requires ino in inodes
      modifies this`dinodes, this`logged
      ensures dinodes == old(dinodes)[ino := inodes[ino]] && logged == old(logged) + {Iblock(g, ino)}
    {
      dinodes := dinodes[ino := inodes[ino]];
      logged := logged + {Iblock(g, ino)};
    }

    /** itrunc, first part: the blocks listed in the inode. */
    method TruncDirects(ino: nat)
      requires Ok(g, S()) && ino in inodes
      modifies this`bits, this`own, this`logged, this`inodes
      ensures Wf(g, S(), {}, {ino}) && Partly(old(S()), S(), ino, NDIRECT)
              && Frees(g, old(S()), S(), old(logged), logged)
    {
      hide Ok, Wf, Bits.IsSet, Addr, Partly, Frees, Bblock;
      PartlyNone(g, S(), ino);
      FreesNone(g, S(), logged);
      var i := 0;
      while i < NDIRECT
        invariant i <= NDIRECT && Wf(g, S(), {}, {ino}) && Partly(old(S()), S(), ino, i)
        invariant Frees(g, old(S()), S(), old(logged), logged)
      {
        ghost var s1, log1 := S(), logged;
        PartlyStep(g, old(S()), s1, ino, i);
        if inodes[ino].addrs[i] != 0 {
          var b := inodes[ino].addrs[i];
          own := own[b := Held];
          assert S() == Disown(s1, b);
          Bfree(b, {Place(ino, i)}, {ino});
          inodes := inodes[ino := inodes[ino].(addrs := inodes[ino].addrs[i := 0])];
          assert S() == WithoutDirect(s1, ino, i);
          FreesOne(g, old(S()), s1, S(), old(logged), log1, b);
        }
        i := i + 1;
      }
    }

    /** itrunc, second part: the blocks listed in the indirect block, and that block. */
    method TruncIndirect(ino: nat, ghost s0: St, ghost log0: set<nat>)
      requires Wf(g, S(), {}, {ino}) && Partly(s0, S(), ino, NDIRECT) && Frees(g, s0, S(), log0, logged)
      modifies this`bits, this`own, this`logged, this`inodes
      ensures Wf(g, S(), {}, {ino}) && Emptied(s0, S(), ino) && Frees(g, s0, S(), log0, logged)
    {
      hide Frees, Bblock, Wf, Bits.IsSet, Addr, Partly, Emptied, SkipTo, Entries, Word;
      PartlyInode(g, s0, S(), ino);
      if inodes[ino].addrs[NDIRECT] != 0 {
        var ind := inodes[ino].addrs[NDIRECT];
        EntriesNone(g, S(), ino);
        ghost var s1 := S();
        var j := 0;
        while j < NINDIRECT
          invariant j <= NINDIRECT && Wf(g, S(), SkipTo(ino, j), {ino}) && Entries(s1, S(), ino, j)
          invariant ind == Indirect(S(), ino) && Shape(g, S()) && ind < g.size && Frees(g, s0, S(), log0, logged)
        {
          ghost var s2, log2 := S(), logged;
          EntryStep(g, s1, s2, ino, j);
          var b := Word(data[ind], j);
          if b != 0 {
            own := own[b := Held];
            assert S() == Disown(s2, b);
            Bfree(b, SkipTo(ino, j + 1), {ino});
            FreesOne(g, s0, s2, S(), log0, log2, b);
          }
          j := j + 1;
        }
        ghost var s3, log3 := S(), logged;
        LastStep(g, s0, s1, s3, ino);
        own := own[ind := Held];
        assert S() == Disown(s3, ind);
        Bfree(ind, SkipTo(ino, NINDIRECT) + {Place(ino, MAXFILE)}, {ino});
        inodes := inodes[ino := inodes[ino].(addrs := inodes[ino].addrs[NDIRECT := 0])];
        assert S() == WithoutIndirect(s3, ino);
        FreesOne(g, s0, s3, S(), log0, log3, ind);
      } else {
        NoEntries(g, s0, S(), ino);
      }
    }

    /** itrunc: discard the contents of a file. */
    method Itrunc(ino: nat)
      requires Ok(g, S()) && ino in inodes
      modifies this
      ensures Ok(g, S()) && Truncated(old(S()), S(), ino)
      ensures dinodes == old(dinodes)[ino := inodes[ino]] && TruncLog(g, old(S()), S(), old(logged), logged, ino)
    {
      hide Ok, Wf, Partly, Truncated, Emptied, Frees, TruncLog, Iblock;
      TruncDirects(ino);
      TruncIndirect(ino, old(S()), old(logged));
      ghost var s3 := S();
      EmptiedAll(g, old(S()), s3, ino);
      inodes := inodes[ino := inodes[ino].(size := 0)];
      assert S() == SetSize(s3, ino, 0);
      FreesSame(g, old(S()), s3, S(), old(logged), logged);
      TruncLogEnd(g, old(S()), S(), old(logged), logged, ino);
      Iupdate(ino);
    }

    /** readi: up to n bytes of a file from off on, if the destination takes them; None is -1. */
    method Readi(ino: nat, off: nat, n: nat, room: nat) returns (r: Option<seq<Byte>>)
      requires Ok(g, S()) && ino in inodes && off < WORD && n < WORD
      modifies this`bits, this`data, this`own, this`logged, this`inodes
      ensures S() == old(S()) && logged == old(logged)
      ensures var c := Contents(S(), ino);
              if off > |c| || off + n >= WORD then r == Some([])
              else
                var end := if off + n < |c| then off + n else |c|;
                r == if end - off <= room then Some(c[off..end]) else None
    {
      hide Ok, Addr, Bmapped, BmapLog, Contents, ByteAt;
      if off > inodes[ino].size || off + n >= WORD {
        return Some([]);
      }
      var len := if off + n > inodes[ino].size then inodes[ino].size - off else n;
      ghost var c := Contents(S(), ino);
      SizeFacts(g, S(), ino);
      var got: seq<Byte> := [];
      while |got| < len
        invariant |got| <= len && |got| <= room && S() == old(S()) && logged == old(logged)
        invariant got == c[off..off + |got|]
      {
        var o := off + |got|;
        FullFacts(g, S(), ino, o);
        var b := Bmap(ino, o / BSIZE);
        FoundFacts(g, old(S()), S(), old(logged), logged, ino, o / BSIZE, b);
        var m := if len - |got| < BSIZE - o % BSIZE then len - |got| else BSIZE - o % BSIZE;
        if |got| + m > room {
          return None;
        }
        var chunk := data[b][o % BSIZE..o % BSIZE + m];
        ReadChunk(S(), ino, o, m);
        got := got + chunk;
      }
      return Some(got);
    }

    /** writei: write src at off of a file. The source of the copy is readable for |src| of the n bytes. */
    method Writei(ino: nat, off: nat, n: nat, src: seq<Byte>) returns (r: int)
      requires Ok(g, S()) && ino in inodes && off < WORD && n < WORD && |src| <= n
      modifies this
      ensures Ok(g, S()) && ino in inodes
      ensures r == -1 <==> off > old(inodes)[ino].size || off + n > MAXFILE * BSIZE
      ensures r == -1 ==> S() == old(S()) && dinodes == old(dinodes) && logged == old(logged)
      ensures r != -1 ==> 0 <= r <= |src| && Written(old(S()), S(), ino, off, src[..r])
                          && dinodes == old(dinodes)[ino := inodes[ino]]
      ensures r != -1 ==> Stopped(S(), ino, off, n, r, |src|)
      ensures r != -1 && |src| == n ==> (r == n <==> |FreeBlocks(old(S()))| >= Needed(old(S()), ino, off, n))
      ensures r != -1 ==> WriteLog(g, old(S()), S(), old(logged), logged, ino, off, n, r)
      ensures old(logged) <= logged && |logged - old(logged)| <= Budget(off, n)
    {
      hide Ok, Addr, Bmapped, BmapLog, Written, WriteLog, Round, Patch, NoneFree, Budget, WriteBlock, Span, AtBlock,
           InSpan, SetSize, Iblock, Needed, FreeBlocks, Effect;
      if off > inodes[ino].size || off + n >= WORD {
        return -1;
      }
      if off + n > MAXFILE * BSIZE {
        return -1;
      }
      ghost var s0, log0 := S(), logged;
      var tot := 0;
      ghost var t := 0;
      RoundNone(g, s0, log0, ino, off, n);
      assert src[..0] == [];
      while tot < n
        invariant tot <= |src| && dinodes == old(dinodes) && Round(g, s0, S(), log0, logged, ino, off, n, src[..tot])
        invariant tot < n ==> AtBlock(off, tot, t)
      {
        ghost var s1, log1 := S(), logged;
        var o := off + tot;
        SpanStep(off, n, tot, t);
        RoundFacts(g, s0, s1, log0, log1, ino, off, n, src[..tot]);
        var b := Bmap(ino, o / BSIZE);
        RoundBmap(g, s0, s1, S(), log0, log1, logged, ino, off, n, src[..tot], b);
        if b == 0 {
          break;
        }
        var m := if n - tot < BSIZE - o % BSIZE then n - tot else BSIZE - o % BSIZE;
        if tot + m > |src| {
          break;
        }
        ghost var s2 := S();
        RoundWrite(g, s0, s2, log0, logged, ino, off, n, src[..tot], src[tot..tot + m], b);
        assert src[..tot] + src[tot..tot + m] == src[..tot + m];
        data := data[b := Patch(data[b], o % BSIZE, src[tot..tot + m])];
        logged := logged + {b};
        WriteFacts(s2, S(), b, data[b]);
        SpanNext(off, n, tot, t, m);
        t, tot := t + 1, tot + m;
      }
      ghost var s3, log3 := S(), logged;
      RoundFacts(g, s0, s3, log0, log3, ino, off, n, src[..tot]);
      RoundEnd(g, s0, s3, log0, log3, ino, off, n, src[..tot]);
      if off + tot > inodes[ino].size {
        inodes := inodes[ino := inodes[ino].(size := off + tot)];
        SizeFacts2(s3, S(), ino, off + tot);
      }
      if |src| == n {
        StoppedFull(S(), ino, off, n, tot);
        WholeIff(g, s0, S(), ino, off, n, tot);
      }
      Iupdate(ino);
      return tot;
    }

    /** filewrite: write n bytes at the offset of f, a chunk to a transaction, each within the limit of the log.
        `peak` is the largest number of blocks a transaction has logged. */
    method Filewrite(f: OpenFile, n: int, src: seq<Byte>) returns (ret: int, ghost total: nat, ghost peak: nat)
      requires Ok(g, S()) && f.ino in inodes && f.off < WORD && n < WORD && |src| <= (if n < 0 then 0 else n)
      modifies this, f`off
      ensures Ok(g, S()) && total <= |src| && f.off == old(f.off) + total
      ensures ret == if total == n then n else -1
      ensures if old(f.off) <= old(inodes[f.ino].size) then Written(old(S()), S(), f.ino, old(f.off), src[..total])
                                                            else S() == old(S()) && total == 0
      ensures total < n && old(f.off) <= old(inodes[f.ino].size) ==>
                WhyShort(S(), f.ino, old(f.off), n, total, |src|)
      ensures n > 0 ==> (total == n <==> AllWhen(old(S()), f.ino, old(f.off), n, |src|))
      ensures peak <= LogSpec.MAXOPBLOCKS
    {
      hide Ok, Written, WriteLog, NoneFree, Budget, Readable, Contents, WhyShort, Stopped, Needed, FreeBlocks, Addr,
           Progress, AllWhen;
      ghost var s0, off0 := S(), f.off;
      var i := 0;
      peak := 0;
      ProgressNone(g, s0, f.ino, off0, src);
      while i < n
        invariant 0 <= i <= |src| && Ok(g, S()) && f.ino in inodes && f.off == off0 + i < WORD
        invariant Progress(g, s0, S(), f.ino, off0, src, i) && peak <= LogSpec.MAXOPBLOCKS
        invariant i < n ==> i % CHUNK == 0
        decreases n - i
      {
        var n1 := if n - i > CHUNK then CHUNK else n - i;
        var chunk := Readable(src, i, n1);
        ghost var s1 := S();
        logged := {};                                        // begin_op
        ChunkFits(f.off, n1);
        var r := Writei(f.ino, f.off, n1, chunk);
        assert logged - {} == logged;
        ChunkDone(g, s0, s1, S(), logged, f.ino, off0, src, i, n, n1, chunk, r);
        if r > 0 {
          f.off := f.off + r;
        }
        peak := if |logged| > peak then |logged| else peak;    // end_op
        if r != n1 {
          return -1, if r > 0 then i + r else i, peak;
        }
        i := i + r;
      }
      if n > 0 { ProgressAll(g, s0, S(), f.ino, off0, src, n); }
      ProgressFacts(g, s0, S(), f.ino, off0, src, i);
      return if i == n then n else -1, i, peak;
    }
  }

  /** filewrite so far: the first i bytes are written, if the offset is not past the end. */
  ghost predicate Progress(g: Geometry, s: St, s': St, ino: nat, off: nat, src: seq<Byte>, i: nat) {
    && ino in s.inodes && i <= |src|
    && if off <= s.inodes[ino].size then Written(s, s', ino, off, src[..i]) && Effect(g, s, s', ino, off, i, i)
       else s' == s && i == 0
  }

  /** What must hold before for all n bytes to be written. */
  ghost predicate AllWhen(s: St, ino: nat, off: nat, n: nat, len: nat) {
    && ino in s.inodes && off <= s.inodes[ino].size && off + n <= MAXFILE * BSIZE && len == n
    && |FreeBlocks(s)| >= Needed(s, ino, off, n)
  }

  // ----- reading and writing -----

  /** After t rounds the loop of writei has come to the start of block t after the first, or has not begun. */
  predicate AtBlock(off: nat, tot: nat, t: nat) {
    if t == 0 then tot == 0 else off + tot == (off / BSIZE + t) * BSIZE
  }

  /** The file is overwritten; no other file changes; blocks are only taken from the free ones, for this file. */
  ghost predicate Written(s: St, s': St, ino: nat, off: nat, w: seq<Byte>) {
    && (forall i :: i in s'.inodes <==> i in s.inodes) && ino in s.inodes && off <= s.inodes[ino].size
    && (forall i :: i in s.inodes ==> Contents(s', i) == if i == ino then Overwrite(Contents(s, i), off, w)
                                                                          else Contents(s, i))
    && (forall i :: i in s.inodes && i != ino ==> s'.inodes[i] == s.inodes[i])
    && |s'.own| == |s.own| && (forall c: nat {:trigger OwnKept(s, s', ino, c)} :: OwnKept(s, s', ino, c))
  }

  // ----- truncating, step by step -----

  /** The first n addresses of the inode are cleared, and the blocks they named are free. */
  ghost predicate Partly(s: St, s': St, ino: nat, n: nat) {
    && s'.data == s.data && |s'.own| == |s.own| && ino in s.inodes && ino in s'.inodes
    && |s.inodes[ino].addrs| == NDIRECT + 1 && |s'.inodes[ino].addrs| == NDIRECT + 1 && n <= NDIRECT
    && (forall b :: 0 <= b < |s.own| ==> s'.own[b] == if s.own[b].DataOf? && s.own[b].ino == ino && s.own[b].bn < n
                                         then Free else s.own[b])
    && s'.inodes == s.inodes[ino := s'.inodes[ino]] && s'.inodes[ino].size == s.inodes[ino].size
    && (forall i :: 0 <= i <= NDIRECT ==> s'.inodes[ino].addrs[i] == if i < n then 0 else s.inodes[ino].addrs[i])
  }

  lemma PartlyNone(g: Geometry, s: St, ino: nat)
    requires Ok(g, s) && ino in s.inodes
    ensures Wf(g, s, {}, {ino}) && Partly(s, s, ino, 0)
  {
    assert InodeAt(g, s, ino);
    forall i: nat, n: nat ensures i in {ino} || FullAt(s, i, n) { assert i in {} || FullAt(s, i, n); }
  }

  function WithoutDirect(s: St, ino: nat, i: nat): St
    requires ino in s.inodes && i < |s.inodes[ino].addrs| && s.inodes[ino].addrs[i] < |s.own|
             && Bits.Has(s.bits, s.inodes[ino].addrs[i])
  {
    var b := s.inodes[ino].addrs[i];
    SetAddr(Ungrab(Disown(s, b), b), ino, i, 0)
  }

  lemma OnlyBlock(g: Geometry, s: St, skip: set<Place>, open: set<nat>, c: nat)
    requires Wf(g, s, skip, open) && c < g.size
    ensures s.own[c].DataOf? ==> Addr(s, s.own[c].ino, s.own[c].bn) == c != 0 && s.own[c].bn < MAXFILE
    ensures s.own[c].IndirectOf? ==> Indirect(s, s.own[c].ino) == c != 0
  {
    hide Bits.IsSet, Addr, Indirect;
    HasBit(g, s, c);
    HasBit(g, s, 0);
    assert BlockAt(g, s, c) && BlockAt(g, s, 0);
  }

  lemma PartlyStep(g: Geometry, s: St, m: St, ino: nat, i: nat)
    requires Wf(g, m, {}, {ino}) && Partly(s, m, ino, i) && i < NDIRECT
    ensures Shape(g, m) && ino in m.inodes && i < |m.inodes[ino].addrs|
    ensures var b := m.inodes[ino].addrs[i];
            if b == 0 then Partly(s, m, ino, i + 1)
            else
              && b < g.size && m.own[b] != Free && Wf(g, Disown(m, b), {Place(ino, i)}, {ino}) && Bits.Has(m.bits, b)
              && Wf(g, WithoutDirect(m, ino, i), {}, {ino}) && Partly(s, WithoutDirect(m, ino, i), ino, i + 1)
  {
    hide Wf, Bits.IsSet;
    WfShape(g, m, {}, {ino});
    var b := m.inodes[ino].addrs[i];
    forall c | 0 <= c < g.size && m.own[c] == DataOf(ino, i) ensures c == b != 0 { OnlyBlock(g, m, {}, {ino}, c); }
    if b != 0 {
      DisownWf(g, m, {}, {ino}, ino, i);
      assert {} + {Place(ino, i)} == {Place(ino, i)};
      HasBit(g, m, b);
      UngrabWf(g, Disown(m, b), {Place(ino, i)}, {ino}, b);
      var n := Ungrab(Disown(m, b), b);
      InodeShape(g, n, {Place(ino, i)}, {ino}, ino);
      ClearDirectWf(g, n, ino, i);
    }
  }

  lemma InodeShape(g: Geometry, s: St, skip: set<Place>, open: set<nat>, ino: nat)
    requires Wf(g, s, skip, open)
    ensures InodeAt(g, s, ino)
  {
  }

  /** The exempt addresses after j entries of the indirect block have been freed. */
  ghost function SkipTo(ino: nat, j: nat): (skip: set<Place>)
    ensures forall p :: p in skip <==> p.ino == ino && NDIRECT <= p.bn < NDIRECT + j
  {
    if j == 0 then {} else SkipTo(ino, j - 1) + {Place(ino, NDIRECT + j - 1)}
  }

  /** The blocks named by the first j entries of the indirect block are free. */
  ghost predicate Entries(s: St, s': St, ino: nat, j: nat) {
    && s'.data == s.data && s'.inodes == s.inodes && |s'.own| == |s.own|
    && (forall b :: 0 <= b < |s.own| ==> s'.own[b] == if s.own[b].DataOf? && s.own[b].ino == ino
                                         && s.own[b].bn < NDIRECT + j then Free else s.own[b])
  }

  lemma PartlyInode(g: Geometry, s: St, m: St, ino: nat)
    requires Wf(g, m, {}, {ino}) && Partly(s, m, ino, NDIRECT)
    ensures Shape(g, m) && ino in m.inodes && |m.inodes[ino].addrs| == NDIRECT + 1
    ensures forall b :: 0 <= b < g.size && m.own[b].DataOf? && m.own[b].ino == ino ==> m.own[b].bn >= NDIRECT
    ensures Indirect(m, ino) != 0 ==> Indirect(m, ino) < g.size
  {
    assert IndirectAt(g, m, ino);
  }

  lemma EntriesNone(g: Geometry, s: St, ino: nat)
    requires Wf(g, s, {}, {ino}) && Shape(g, s)
    requires forall b :: 0 <= b < g.size && s.own[b].DataOf? && s.own[b].ino == ino ==> s.own[b].bn >= NDIRECT
    ensures SkipTo(ino, 0) == {} && Entries(s, s, ino, 0)
  {
  }

  lemma WfSkipMore(g: Geometry, s: St, skip: set<Place>, skip': set<Place>, open: set<nat>)
    requires Wf(g, s, skip, open) && skip <= skip'
    ensures Wf(g, s, skip', open)
  {
  }

  lemma EntryStep(g: Geometry, s: St, m: St, ino: nat, j: nat)
    requires Wf(g, m, SkipTo(ino, j), {ino}) && Entries(s, m, ino, j) && j < NINDIRECT && ino in m.inodes
             && 0 < Indirect(m, ino) < g.size
    ensures Shape(g, m)
    ensures var b := Word(m.data[Indirect(m, ino)], j);
            if b == 0 then Wf(g, m, SkipTo(ino, j + 1), {ino}) && Entries(s, m, ino, j + 1)
            else
              && b < g.size && m.own[b] != Free && Wf(g, Disown(m, b), SkipTo(ino, j + 1), {ino}) && Bits.Has(m.bits, b)
              && Wf(g, Ungrab(Disown(m, b), b), SkipTo(ino, j + 1), {ino})
                 && Entries(s, Ungrab(Disown(m, b), b), ino, j + 1)
  {
    hide Wf, Bits.IsSet, Word, SkipTo;
    WfShape(g, m, SkipTo(ino, j), {ino});
    InodeShape(g, m, SkipTo(ino, j), {ino}, ino);
    var n := NDIRECT + j;
    var b := Addr(m, ino, n);
    forall c | 0 <= c < g.size && m.own[c] == DataOf(ino, n)
      ensures c == b != 0
    {
      OnlyBlock(g, m, SkipTo(ino, j), {ino}, c);
    }
    WfSkipMore(g, m, SkipTo(ino, j), SkipTo(ino, j + 1), {ino});
    if b != 0 {
      DisownWf(g, m, SkipTo(ino, j), {ino}, ino, n);
      assert SkipTo(ino, j) + {Place(ino, n)} == SkipTo(ino, j + 1);
      HasBit(g, m, b);
      UngrabWf(g, Disown(m, b), SkipTo(ino, j + 1), {ino}, b);
    }
  }

  function WithoutIndirect(s: St, ino: nat): St
    requires ino in s.inodes && NDIRECT < |s.inodes[ino].addrs| && Indirect(s, ino) < |s.own|
             && Bits.Has(s.bits, Indirect(s, ino))
  {
    SetAddr(Ungrab(Disown(s, Indirect(s, ino)), Indirect(s, ino)), ino, NDIRECT, 0)
  }

  /** The inode has no addresses, and the blocks of the file are free. */
  ghost predicate Emptied(s: St, s': St, ino: nat) {
    && s'.data == s.data && |s'.own| == |s.own| && ino in s.inodes && ino in s'.inodes
    && s'.inodes == s.inodes[ino := s'.inodes[ino]] && s'.inodes[ino].addrs == NoAddrs()
    && (forall b :: 0 <= b < |s.own| ==> s'.own[b] == if OfFile(s.own[b], ino) then Free else s.own[b])
  }

  lemma LastStep(g: Geometry, s: St, s1: St, m: St, ino: nat)
    requires Wf(g, m, SkipTo(ino, NINDIRECT), {ino}) && Partly(s, s1, ino, NDIRECT) && Entries(s1, m, ino, NINDIRECT)
    requires ino in m.inodes && 0 < Indirect(m, ino) < g.size
    ensures Shape(g, m) && NDIRECT < |m.inodes[ino].addrs| && Bits.Has(m.bits, Indirect(m, ino))
    ensures m.own[Indirect(m, ino)] != Free
    ensures Wf(g, Disown(m, Indirect(m, ino)), SkipTo(ino, NINDIRECT) + {Place(ino, MAXFILE)}, {ino})
    ensures Wf(g, WithoutIndirect(m, ino), {}, {ino}) && Emptied(s, WithoutIndirect(m, ino), ino)
  {
    hide Wf, Bits.IsSet, Word, SkipTo;
    var skip, ind := SkipTo(ino, NINDIRECT), Indirect(m, ino);
    WfShape(g, m, skip, {ino});
    InodeShape(g, m, skip, {ino}, ino);
    forall c | 0 <= c < g.size
      ensures (m.own[c] == IndirectOf(ino) ==> c == ind) && !(m.own[c].DataOf? && m.own[c].ino == ino)
    {
      OnlyBlock(g, m, skip, {ino}, c);
    }
    DisownIndirectWf(g, m, skip, {ino}, ino);
    HasBit(g, m, ind);
    var skip' := skip + {Place(ino, MAXFILE)};
    UngrabWf(g, Disown(m, ind), skip', {ino}, ind);
    var n := Ungrab(Disown(m, ind), ind);
    InodeShape(g, n, skip', {ino}, ino);
    ClearIndirectWf(g, n, skip', ino);
  }

  lemma NoEntries(g: Geometry, s: St, m: St, ino: nat)
    requires Wf(g, m, {}, {ino}) && Partly(s, m, ino, NDIRECT) && Indirect(m, ino) == 0
    ensures Emptied(s, m, ino)
  {
    hide Wf, Bits.IsSet, Word;
    WfShape(g, m, {}, {ino});
    forall c | 0 <= c < g.size ensures !OfFile(m.own[c], ino) { OnlyBlock(g, m, {}, {ino}, c); }
  }

  lemma EmptiedAll(g: Geometry, s: St, m: St, ino: nat)
    requires Wf(g, m, {}, {ino}) && Emptied(s, m, ino)
    ensures ino in m.inodes && Ok(g, SetSize(m, ino, 0)) && Truncated(s, SetSize(m, ino, 0), ino)
  {
    SetSizeWf(g, m, {ino}, ino, 0);
  }

  // ----- what bmap logs -----

  /** bmap logs the blocks it adds with their bit map blocks, and the indirect block if it adds an entry. */
  ghost predicate BmapLog(g: Geometry, s: St, s': St, log: set<nat>, log': set<nat>, ino: nat, bn: nat) {
    Logs(g, s, s', log, log', ino, 0, 0) && Grown(s, s', ino, bn, bn + 1)
  }

  lemma BmapLogNone(g: Geometry, s: St, log: set<nat>, ino: nat, bn: nat)
    ensures BmapLog(g, s, s, log, log, ino, bn)
  {
    LogsNone(g, s, log, ino, 0);
    GrownNone(s, ino, bn, bn + 1);
  }

  lemma BmapLogDirect(g: Geometry, s: St, log: set<nat>, ino: nat, bn: nat, b: nat)
    requires ino in s.inodes && |s.inodes[ino].addrs| == NDIRECT + 1 && bn < NDIRECT && Addr(s, ino, bn) == 0
    requires 0 < b < |s.data| && b < |s.own| && Bits.Has(s.bits, b) && Lowest(s, b)
    requires Bmapped(s, PutDirect(Grab(s, b), ino, bn, b), ino, bn, b)
    ensures BmapLog(g, s, PutDirect(Grab(s, b), ino, bn, b), log, log + {Bblock(g, b), b}, ino, bn)
  {
    hide Zero, Word, Lowest, Addr, Logs, Grown, Kept;
    var s' := PutDirect(Grab(s, b), ino, bn, b);
    assert s'.own == s.own[b := DataOf(ino, bn)];
    LogsOne(g, s, s', log, ino, b, DataOf(ino, bn));
    GrownOne(g, s, s', ino, bn, b, DataOf(ino, bn));
    assert log + {Bblock(g, b), b} + {} == log + {Bblock(g, b), b};
  }

  lemma BmapLogIndirect(g: Geometry, s: St, log: set<nat>, ino: nat, bn: nat, b: nat)
    requires ino in s.inodes && |s.inodes[ino].addrs| == NDIRECT + 1 && Indirect(s, ino) == 0 && NDIRECT <= bn
    requires b < |s.data| && b < |s.own| && Bits.Has(s.bits, b) && Lowest(s, b)
    requires SameAddrs(s, PutIndirect(Grab(s, b), ino, b))
    ensures BmapLog(g, s, PutIndirect(Grab(s, b), ino, b), log, log + {Bblock(g, b), b}, ino, bn)
  {
    hide Zero, Word, Lowest, Addr, Logs, Grown, Kept;
    var s' := PutIndirect(Grab(s, b), ino, b);
    assert s'.own == s.own[b := IndirectOf(ino)];
    LogsOne(g, s, s', log, ino, b, IndirectOf(ino));
    GrownOne(g, s, s', ino, bn, b, IndirectOf(ino));
    assert log + {Bblock(g, b), b} + {} == log + {Bblock(g, b), b};
  }

  lemma BmapLogEntry(g: Geometry, s: St, log: set<nat>, ino: nat, j: nat, b: nat)
    requires ino in s.inodes && j < NINDIRECT && Addr(s, ino, NDIRECT + j) == 0
    requires 0 < b < |s.data| && b < |s.own| && b < WORD && Bits.Has(s.bits, b) && Lowest(s, b)
    requires var n := Grab(s, b); Indirect(n, ino) < |n.data| && 4 * j + 3 < |n.data[Indirect(n, ino)]|
    requires Bmapped(s, PutEntry(Grab(s, b), ino, j, b), ino, NDIRECT + j, b)
    ensures BmapLog(g, s, PutEntry(Grab(s, b), ino, j, b), log, log + {Bblock(g, b), b} + {Indirect(s, ino)}, ino,
            NDIRECT + j)
  {
    hide Zero, Word, SetWord, Lowest, Addr, Logs, Grown, Kept;
    var s', bn := PutEntry(Grab(s, b), ino, j, b), NDIRECT + j;
    assert s'.own == s.own[b := DataOf(ino, bn)];
    LogsOne(g, s, s', log, ino, b, DataOf(ino, bn));
    GrownOne(g, s, s', ino, bn, b, DataOf(ino, bn));
  }

  /** The two parts of bmap together. */
  lemma BmapLogAfter(g: Geometry, a: St, b: St, c: St, log: set<nat>, log1: set<nat>, log': set<nat>, ino: nat,
                     bn: nat, x: nat)
    requires BmapLog(g, a, b, log, log1, ino, bn) && BmapLog(g, b, c, log1, log', ino, bn)
    requires Ok(g, b) && Kept(a, b, ino) && Bmapped(b, c, ino, bn, x)
    ensures BmapLog(g, a, c, log, log', ino, bn)
  {
    hide Ok, Kept, Stays, Logs, Grown, Bmapped;
    BmappedKept(b, c, ino, bn, x);
    StaysSame(a, ino);
    StaysAfter(a, a, b, ino);
    LogsAfter(g, a, b, c, log, log1, log', ino, 0, 0);
    GrownAfter(a, b, c, ino, bn, bn + 1, bn);
  }

  /** Where there is an entry there was an indirect block. */
  lemma Found(g: Geometry, s: St, m: St, ino: nat, bn: nat)
    requires Addr(s, ino, bn) != 0 && NDIRECT <= bn
    ensures Indirect(s, ino) != 0
  {
  }

  lemma NoIndirect(s: St, ino: nat, bn: nat)
    requires Indirect(s, ino) == 0 && NDIRECT <= bn
    ensures Addr(s, ino, bn) == 0
  {
  }

  lemma PutDirectFacts(s: St, ino: nat, i: nat, b: nat)
    requires ino in s.inodes && i < |s.inodes[ino].addrs| && b < |s.own|
    ensures PutDirect(s, ino, i, b)
            == s.(inodes := s.inodes[ino := s.inodes[ino].(addrs := s.inodes[ino].addrs[i := b])],
            own := s.own[b := DataOf(ino, i)])
  {
  }

  lemma PutIndirectFacts(s: St, ino: nat, b: nat)
    requires ino in s.inodes && NDIRECT < |s.inodes[ino].addrs| && b < |s.own|
    ensures PutIndirect(s, ino, b)
            == s.(inodes := s.inodes[ino := s.inodes[ino].(addrs := s.inodes[ino].addrs[NDIRECT := b])],
            own := s.own[b := IndirectOf(ino)])
  {
  }

  lemma PutEntryFacts(s: St, ino: nat, j: nat, b: nat)
    requires Indirect(s, ino) < |s.data| && b < |s.own| && b < WORD && 4 * j + 3 < |s.data[Indirect(s, ino)]|
    ensures PutEntry(s, ino, j, b)
              == s.(data := s.data[Indirect(s, ino) := SetWord(s.data[Indirect(s, ino)], j, b)],
                own := s.own[b := DataOf(ino, NDIRECT + j)])
  {
  }

  lemma KeptInode(s: St, s': St, ino: nat)
    requires Kept(s, s', ino) && ino in s.inodes
    ensures ino in s'.inodes && |s'.own| == |s.own|
  {
  }

  lemma ShapeFacts(g: Geometry, s: St)
    requires Ok(g, s)
    ensures Shape(g, s)
  {
  }

  lemma WfShape(g: Geometry, s: St, skip: set<Place>, open: set<nat>)
    requires Wf(g, s, skip, open)
    ensures Shape(g, s)
  {
  }

  lemma BitFacts(g: Geometry, s: St, b: nat)
    requires Ok(g, s) && b < g.size
    ensures Shape(g, s) && Bits.Has(s.bits, b) && (Bits.IsSet(s.bits, b) <==> s.own[b] != Free)
  {
    hide Bits.IsSet;
    HasBit(g, s, b);
    assert BlockAt(g, s, b);
  }

  lemma GrabWf2(g: Geometry, s: St, b: nat)
    requires Ok(g, s) && b < g.size && Bits.Has(s.bits, b) && Shape(g, s) && s.own[b] == Free
    ensures Ok(g, Grab(s, b)) && b != 0
  {
    GrabWf(g, s, b);
  }

  lemma GrabFacts(s: St, b: nat)
    requires b < |s.data| && b < |s.own| && Bits.Has(s.bits, b)
    ensures Grab(s, b) == s.(bits := Bits.Set(s.bits, b), data := s.data[b := Zero()], own := s.own[b := Held])
  {
  }

  lemma InodeFacts(g: Geometry, s: St, ino: nat)
    requires Ok(g, s) && ino in s.inodes
    ensures Shape(g, s) && InodeAt(g, s, ino) && IndirectAt(g, s, ino)
  {
  }

  lemma SameAddrsSelf(s: St)
    ensures SameAddrs(s, s)
  {
  }

  lemma AddrFacts(g: Geometry, s0: St, s1: St, ino: nat, bn: nat)
    requires Ok(g, s1) && ino in s1.inodes && NDIRECT <= bn < MAXFILE && Indirect(s1, ino) != 0 && SameAddrs(s0, s1)
    ensures Shape(g, s1) && 0 < Indirect(s1, ino) < g.size && |s1.data[Indirect(s1, ino)]| == BSIZE
    ensures Addr(s1, ino, bn) == Word(s1.data[Indirect(s1, ino)], bn - NDIRECT)
            && Addr(s0, ino, bn) == Addr(s1, ino, bn)
    ensures Addr(s1, ino, bn) < g.size
  {
    hide Word, Bits.IsSet;
    InodeFacts(g, s1, ino);
    HasBit(g, s1, Indirect(s1, ino));
    assert BlockAt(g, s1, Indirect(s1, ino));
    assert PlaceAt(g, s1, ino, bn);
  }

  lemma SizeFacts(g: Geometry, s: St, ino: nat)
    requires Ok(g, s) && ino in s.inodes
    ensures s.inodes[ino].size <= MAXFILE * BSIZE
  {
    assert InodeAt(g, s, ino);
  }

  lemma FullFacts(g: Geometry, s: St, ino: nat, o: nat)
    requires Ok(g, s) && ino in s.inodes && o < s.inodes[ino].size
    ensures o / BSIZE < MAXFILE && Addr(s, ino, o / BSIZE) != 0
  {
    assert InodeAt(g, s, ino) && FullAt(s, ino, o / BSIZE);
  }

  lemma FoundFacts(g: Geometry, s: St, s': St, log: set<nat>, log': set<nat>, ino: nat, bn: nat, b: nat)
    requires Ok(g, s) && Addr(s, ino, bn) != 0 && Bmapped(s, s', ino, bn, b) && BmapLog(g, s, s', log, log', ino, bn)
    ensures s' == s && log' == log && b == Addr(s, ino, bn) && 0 < b < |s.data| && |s.data[b]| == BSIZE
  {
    hide Bits.IsSet, Word;
    assert PlaceAt(g, s, ino, bn);
    HasBit(g, s, Addr(s, ino, bn));
    assert BlockAt(g, s, Addr(s, ino, bn));
    assert Addr(s', ino, bn) == b;
    LogsSame(g, s, log, log', ino);
  }

  lemma ReadChunk(s: St, ino: nat, o: nat, m: nat)
    requires ino in s.inodes && o + m <= s.inodes[ino].size && m <= BSIZE - o % BSIZE
    requires var b := Addr(s, ino, o / BSIZE); 0 < b < |s.data| && |s.data[b]| == BSIZE
    ensures s.data[Addr(s, ino, o / BSIZE)][o % BSIZE..o % BSIZE + m] == Contents(s, ino)[o..o + m]
  {
    hide Addr;
    var left, right := s.data[Addr(s, ino, o / BSIZE)][o % BSIZE..o % BSIZE + m], Contents(s, ino)[o..o + m];
    forall i | 0 <= i < m ensures left[i] == right[i] {
      SameBlock(o, o + i, m);
    }
  }

  lemma SpanStep(off: nat, n: nat, tot: nat, t: nat)
    requires tot < n && off + n <= MAXFILE * BSIZE && AtBlock(off, tot, t)
    ensures (off + tot) / BSIZE < MAXFILE && InSpan(off, n, tot)
  {
    CoversSpan(off, n, n, (off + tot) / BSIZE);
  }

  /** The next block to write is among those the write spans. */
  predicate InSpan(off: nat, n: nat, tot: nat) {
    off / BSIZE <= (off + tot) / BSIZE < off / BSIZE + Span(off, n)
  }

  lemma SpanNext(off: nat, n: nat, tot: nat, t: nat, m: nat)
    requires tot < n && AtBlock(off, tot, t)
    requires var o := off + tot; m == if n - tot < BSIZE - o % BSIZE then n - tot else BSIZE - o % BSIZE
    ensures tot + m < n ==> AtBlock(off, tot + m, t + 1)
  {
    var o := off + tot;
    assert o == o / BSIZE * BSIZE + o % BSIZE;
    assert off == off / BSIZE * BSIZE + off % BSIZE;
  }

  lemma BmappedKept(s: St, s': St, ino: nat, bn: nat, b: nat)
    requires Bmapped(s, s', ino, bn, b)
    ensures Kept(s, s', ino) && Addr(s', ino, bn) == b && (b == 0 ==> NoneFree(s'))
  {
  }

  lemma WriteFacts(s: St, s': St, b: nat, bytes: Block)
    requires b < |s.data| && s' == s.(data := s.data[b := bytes])
    ensures s' == WriteBlock(s, b, bytes)
  {
  }

  lemma WrittenEnd(g: Geometry, s: St, m: St, ino: nat, off: nat, w: seq<Byte>)
    requires Ok(g, s) && Ok(g, m) && Wrote(s, m, ino, off, w) && Stays(s, m, ino) && ino in s.inodes
             && off <= s.inodes[ino].size
    requires off + |w| <= MAXFILE * BSIZE
    ensures ino in m.inodes
    ensures var s' := if off + |w| > m.inodes[ino].size then SetSize(m, ino, off + |w|) else m;
            Ok(g, s') && Written(s, s', ino, off, w) && (NoneFree(m) ==> NoneFree(s'))
  {
    hide Wf, Addr, Contents, Overwrite, ByteAt, Wrote;
    var s' := if off + |w| > m.inodes[ino].size then SetSize(m, ino, off + |w|) else m;
    forall bn: nat | bn * BSIZE < off + |w| ensures Addr(m, ino, bn) != 0 { WroteFull(g, s, m, ino, off, w, bn); }
    if off + |w| > m.inodes[ino].size { SetSizeWf(g, m, {}, ino, off + |w|); }
    forall i | i in s.inodes
      ensures Contents(s', i) == if i == ino then Overwrite(Contents(s, i), off, w) else Contents(s, i)
    {
      WroteContents(g, s, m, ino, off, w, i);
    }
    forall c: nat ensures OwnKept(s, s', ino, c) { assert OwnKept(s, m, ino, c); }
  }

  // ----- one round of the loop of writei -----

  lemma AddrsWritten(s: St, m: St, s': St, ino: nat, off: nat, w: seq<Byte>, bn: nat, b: nat)
    requires Wrote(s, m, ino, off, w) && Bmapped(m, s', ino, bn, b)
    ensures forall k: nat :: Covers(off, |w|, k) ==> Addr(s', ino, k) == Addr(m, ino, k)
  {
    hide Addr;
    forall k: nat | Covers(off, |w|, k) ensures Addr(s', ino, k) == Addr(m, ino, k) {
      var a := if k == off / BSIZE then off else k * BSIZE;
      assert a / BSIZE == k && off <= a < off + |w|;
      assert WroteAt(s, m, ino, off, w, ino, a);
    }
  }

  ghost predicate Round(g: Geometry, s: St, s': St, log: set<nat>, log': set<nat>, ino: nat, off: nat, n: nat,
                        w: seq<Byte>) {
    && Ok(g, s) && Ok(g, s') && ino in s.inodes && off <= s.inodes[ino].size
    && Wrote(s, s', ino, off, w) && Stays(s, s', ino)
    && Logs(g, s, s', log, log', ino, off, |w|) && Grown(s, s', ino, off / BSIZE, off / BSIZE + Span(off, n))
  }

  lemma RoundFacts(g: Geometry, s: St, s': St, log: set<nat>, log': set<nat>, ino: nat, off: nat, n: nat, w: seq<Byte>)
    requires Round(g, s, s', log, log', ino, off, n, w)
    ensures Ok(g, s') && ino in s'.inodes && s'.inodes[ino].size == s.inodes[ino].size
  {
    hide Ok, Logs, Grown;
  }

  lemma RoundNone(g: Geometry, s: St, log: set<nat>, ino: nat, off: nat, n: nat)
    requires Ok(g, s) && ino in s.inodes && off <= s.inodes[ino].size
    ensures Round(g, s, s, log, log, ino, off, n, []) && AtBlock(off, 0, 0)
  {
    hide Ok, Wrote, Stays, Logs, Grown;
    WroteNone(s, ino, off);
    StaysSame(s, ino);
    LogsNone(g, s, log, ino, off);
    GrownNone(s, ino, off / BSIZE, off / BSIZE + Span(off, n));
  }

  lemma RoundBmap(g: Geometry, s: St, m: St, s': St, log: set<nat>, log1: set<nat>, log': set<nat>, ino: nat, off: nat,
                  n: nat,
                  w: seq<Byte>, b: nat)
    requires Round(g, s, m, log, log1, ino, off, n, w) && Ok(g, s') && InSpan(off, n, |w|)
    requires var bn := (off + |w|) / BSIZE; Bmapped(m, s', ino, bn, b) && BmapLog(g, m, s', log1, log', ino, bn)
    ensures Round(g, s, s', log, log', ino, off, n, w) && Addr(s', ino, (off + |w|) / BSIZE) == b
            && (b == 0 ==> NoneFree(s'))
  {
    hide Ok, Wrote, Stays, Logs, Grown, Bmapped, NoneFree, Addr, Span;
    var bn := (off + |w|) / BSIZE;
    WroteBmap(g, s, m, s', ino, off, w, bn, b);
    BmappedKept(m, s', ino, bn, b);
    StaysAfter(s, m, s', ino);
    AddrsWritten(s, m, s', ino, off, w, bn, b);
    LogsAfter(g, s, m, s', log, log1, log', ino, off, |w|);
    GrownAfter(s, m, s', ino, off / BSIZE, off / BSIZE + Span(off, n), bn);
  }

  lemma RoundWrite(g: Geometry, s: St, m: St, log: set<nat>, log1: set<nat>, ino: nat, off: nat, n: nat, w: seq<Byte>,
                   x: seq<Byte>, b: nat)
    requires Round(g, s, m, log, log1, ino, off, n, w) && b != 0
    requires var o := off + |w|; Addr(m, ino, o / BSIZE) == b && 0 < |x| <= BSIZE - o % BSIZE
    ensures 0 < b < |m.data| && |m.data[b]| == BSIZE
    ensures Round(g, s, WriteBlock(m, b, Patch(m.data[b], (off + |w|) % BSIZE, x)), log, log1 + {b}, ino, off, n, w + x)
  {
    hide Ok, Wrote, Stays, Logs, Grown, Addr, Patch, SameAddrs, Span;
    ShapeFacts(g, m);
    WroteMore(g, s, m, ino, off, w, x);
    var bytes := Patch(m.data[b], (off + |w|) % BSIZE, x);
    StaysWrite(s, m, ino, b, bytes);
    LogsWrite(g, s, m, log, log1, ino, off, |w|, |x|, b, bytes);
    GrownWrite(s, m, ino, off / BSIZE, off / BSIZE + Span(off, n), b, bytes);
  }

  lemma RoundEnd(g: Geometry, s: St, m: St, log: set<nat>, log1: set<nat>, ino: nat, off: nat, n: nat, w: seq<Byte>)
    requires Round(g, s, m, log, log1, ino, off, n, w) && |w| <= n && off + |w| <= MAXFILE * BSIZE
    ensures ino in m.inodes
    ensures var s' := if off + |w| > m.inodes[ino].size then SetSize(m, ino, off + |w|) else m;
            var log' := log1 + {Iblock(g, ino)};
            && Ok(g, s') && Written(s, s', ino, off, w) && (NoneFree(m) ==> NoneFree(s'))
            && Addr(s', ino, (off + |w|) / BSIZE) == Addr(m, ino, (off + |w|) / BSIZE)
            && log <= log' && |log' - log| <= Budget(off, n) && WriteLog(g, s, s', log, log', ino, off, n, |w|)
            && Effect(g, s, s', ino, off, n, |w|)
  {
    hide Ok, Wrote, Logs, Grown, Addr, WriteLog, Budget, Span, Contents, Iblock;
    WrittenEnd(g, s, m, ino, off, w);
    var s' := if off + |w| > m.inodes[ino].size then SetSize(m, ino, off + |w|) else m;
    var log' := log1 + {Iblock(g, ino)};
    forall i: nat, k: nat ensures Addr(s', i, k) == Addr(m, i, k) { if s' != m { SizeAddr(m, ino, off + |w|, i, k); } }
    WriteLogEnd(g, s, m, s', log, log1, ino, off, n, |w|);
    WrittenSize(s, s', ino, off, w);
    WriteLogGrown(g, s, s', log, log', ino, off, n, |w|);
    assert Outcome(g, s, s', log, log', ino, off, n, |w|);
    WithinBudget(g, s, s', log, log', ino, off, n, |w|);
  }

  lemma SizeAddr(m: St, ino: nat, size: nat, i: nat, bn: nat)
    requires ino in m.inodes
    ensures Addr(SetSize(m, ino, size), i, bn) == Addr(m, i, bn)
  {
  }

  lemma SizeFacts2(s: St, s': St, ino: nat, size: nat)
    requires ino in s.inodes && s' == s.(inodes := s.inodes[ino := s.inodes[ino].(size := size)])
    ensures s' == SetSize(s, ino, size)
  {
  }

  // ----- chunks -----

  lemma WrittenNone(s: St, ino: nat, off: nat)
    requires ino in s.inodes && off <= s.inodes[ino].size
    ensures Written(s, s, ino, off, [])
  {
    forall c: nat ensures OwnKept(s, s, ino, c) {}
    forall i | i in s.inodes
      ensures Contents(s, i) == if i == ino then Overwrite(Contents(s, i), off, []) else Contents(s, i)
    {
    }
  }

  lemma WrittenSize(s: St, s': St, ino: nat, off: nat, w: seq<Byte>)
    requires Written(s, s', ino, off, w)
    ensures ino in s'.inodes && off + |w| <= s'.inodes[ino].size
  {
    OverwriteAt(Contents(s, ino), off, w, 0);
    assert |Contents(s', ino)| == s'.inodes[ino].size;
  }

  lemma OverwriteTwice(c: seq<Byte>, off: nat, w: seq<Byte>, x: seq<Byte>)
    requires off <= |c|
    ensures off + |w| <= |Overwrite(c, off, w)| && Overwrite(Overwrite(c, off, w), off + |w|, x) == Overwrite(c, off,
            w + x)
  {
  }

  lemma WrittenMore(a: St, b: St, c: St, ino: nat, off: nat, w: seq<Byte>, x: seq<Byte>)
    requires Written(a, b, ino, off, w) && Written(b, c, ino, off + |w|, x)
    ensures Written(a, c, ino, off, w + x)
  {
    hide Contents, Overwrite;
    forall n: nat ensures OwnKept(a, c, ino, n) {
      assert OwnKept(a, b, ino, n) && OwnKept(b, c, ino, n);
    }
    OverwriteTwice(Contents(a, ino), off, w, x);
  }

  /** What can be copied of the n bytes at position i of the source. */
  function Readable(src: seq<Byte>, i: nat, n: nat): (c: seq<Byte>)
    requires i <= |src|
    ensures |c| <= n && |c| <= |src| - i
  {
    if i + n <= |src| then src[i..i + n] else src[i..]
  }

  lemma ChunkWritten(g: Geometry, a: St, b: St, c: St, ino: nat, off: nat, src: seq<Byte>, i: nat, chunk: seq<Byte>,
                     r: nat)
    requires i <= |src| && r <= |chunk| && (exists n: nat :: chunk == Readable(src, i, n)) && Ok(g, c)
    requires Written(a, b, ino, off, src[..i]) && Written(b, c, ino, off + i, chunk[..r])
    ensures i + r <= |src| && Written(a, c, ino, off, src[..i + r]) && off + i + r <= MAXFILE * BSIZE && ino in c.inodes
  {
    hide Written, Ok;
    WrittenMore(a, b, c, ino, off, src[..i], chunk[..r]);
    assert src[..i] + chunk[..r] == src[..i + r];
    WrittenSize(b, c, ino, off + i, chunk[..r]);
    SizeFacts(g, c, ino);
  }

  /** What a call of writei establishes, as the lemmas on the blocks it logs take it. */
  lemma WriteOutcome(g: Geometry, s: St, s': St, log: set<nat>, log': set<nat>, ino: nat, off: nat, n: nat,
                     src: seq<Byte>,
                     r: nat)
    requires Ok(g, s) && Ok(g, s') && r <= |src| <= n && Written(s, s', ino, off, src[..r])
    requires WriteLog(g, s, s', log, log', ino, off, n, r)
    ensures Outcome(g, s, s', log, log', ino, off, n, r)
  {
    hide Ok, WriteLog, Contents, Grown;
    WriteLogGrown(g, s, s', log, log', ino, off, n, r);
    WrittenSize(s, s', ino, off, src[..r]);
  }

  lemma OutcomeEffect(g: Geometry, s: St, s': St, log: set<nat>, log': set<nat>, ino: nat, off: nat, n: nat, r: nat)
    requires Outcome(g, s, s', log, log', ino, off, n, r)
    ensures Effect(g, s, s', ino, off, n, r)
  {
  }

  lemma ProgressNone(g: Geometry, s: St, ino: nat, off: nat, src: seq<Byte>)
    requires Ok(g, s) && ino in s.inodes
    ensures Progress(g, s, s, ino, off, src, 0)
  {
    hide Ok, Written, Effect;
    assert src[..0] == [];
    if off <= s.inodes[ino].size {
      WrittenNone(s, ino, off);
      EffectNone(g, s, ino, off);
    }
  }

  lemma ProgressFacts(g: Geometry, s: St, s': St, ino: nat, off: nat, src: seq<Byte>, i: nat)
    requires Progress(g, s, s', ino, off, src, i)
    ensures ino in s.inodes && i <= |src|
    ensures if off <= s.inodes[ino].size then Written(s, s', ino, off, src[..i]) else s' == s && i == 0
  {
    hide Written, Effect;
  }

  lemma ProgressAll(g: Geometry, s: St, s': St, ino: nat, off: nat, src: seq<Byte>, n: nat)
    requires Progress(g, s, s', ino, off, src, n) && n > 0 && |src| <= n
    ensures AllWhen(s, ino, off, n, |src|)
  {
    hide Written, Effect, Needed, FreeBlocks, WhyShort;
    AllIff(g, s, s', ino, off, n, n, |src|);
  }

  lemma ChunkPut(g: Geometry, s: St, m: St, s': St, logged: set<nat>, ino: nat, off: nat, src: seq<Byte>, i: nat,
                 n1: nat, chunk: seq<Byte>, r: nat)
    requires Ok(g, m) && Ok(g, s') && Progress(g, s, m, ino, off, src, i) && off <= s.inodes[ino].size
    requires chunk == Readable(src, i, n1) && r <= |chunk| && Written(m, s', ino, off + i, chunk[..r])
    requires WriteLog(g, m, s', {}, logged, ino, off + i, n1, r)
    ensures ino in s'.inodes && i + r <= |src| && off + i + r <= MAXFILE * BSIZE
    ensures Written(s, s', ino, off, src[..i + r]) && Effect(g, s, s', ino, off, i + n1, i + r)
  {
    hide Ok, Written, Effect, WriteLog, Readable, Contents;
    ChunkWritten(g, s, m, s', ino, off, src, i, chunk, r);
    WriteOutcome(g, m, s', {}, logged, ino, off + i, n1, chunk, r);
    OutcomeEffect(g, m, s', {}, logged, ino, off + i, n1, r);
    EffectMore(g, s, m, s', ino, off, i, n1, r);
  }

  lemma ChunkShort(g: Geometry, s: St, s': St, ino: nat, off: nat, src: seq<Byte>, m: nat, n: nat, done: nat)
    requires Effect(g, s, s', ino, off, m, done) && m <= n && done < n && done <= |src| <= n
    requires WhyShort(s', ino, off, n, done, |src|)
    ensures !AllWhen(s, ino, off, n, |src|)
  {
    hide Effect, Needed, FreeBlocks, WhyShort;
    EffectWide(g, s, s', ino, off, m, n, done);
    AllIff(g, s, s', ino, off, n, done, |src|);
  }

  /** What one call of writei in filewrite gave: the chunk is written, or what was written is all there will be. */
  ghost predicate ChunkGives(g: Geometry, s: St, s': St, ino: nat, off: nat, src: seq<Byte>, n: nat, done: nat,
                             all: bool)
    requires ino in s.inodes && done <= |src|
  {
    if all then
      Progress(g, s, s', ino, off, src, done) && (done < n ==> done % CHUNK == 0)
    else
      && done < n && !AllWhen(s, ino, off, n, |src|)
      && if off <= s.inodes[ino].size then Written(s, s', ino, off, src[..done])
                                           && WhyShort(s', ino, off, n, done, |src|)
         else s' == s && done == 0
  }

  lemma ChunkDone(g: Geometry, s: St, m: St, s': St, logged: set<nat>, ino: nat, off: nat, src: seq<Byte>, i: nat,
                  n: nat,
                  n1: nat, chunk: seq<Byte>, r: int)
    requires Ok(g, m) && Ok(g, s') && Progress(g, s, m, ino, off, src, i) && ino in m.inodes
    requires i < n && |src| <= n && i % CHUNK == 0
    requires n1 == (if n - i > CHUNK then CHUNK else n - i) && chunk == Readable(src, i, n1)
    requires r == -1 <==> off + i > m.inodes[ino].size || off + i + n1 > MAXFILE * BSIZE
    requires r == -1 ==> s' == m
    requires r != -1 ==> 0 <= r <= |chunk| && Written(m, s', ino, off + i, chunk[..r])
    requires r != -1 ==> Stopped(s', ino, off + i, n1, r, |chunk|)
                         && WriteLog(g, m, s', {}, logged, ino, off + i, n1, r)
    ensures ino in s'.inodes && (r > 0 ==> i + r <= |src| && off + i + r <= MAXFILE * BSIZE && r <= n1)
    ensures ino in s.inodes && i <= |src| && ChunkGives(g, s, s', ino, off, src, n, if r > 0 then i + r else i, r == n1)
  {
    hide Ok, Written, Effect, Stopped, WriteLog, WhyShort, Readable, Contents, AllWhen;
    if off <= s.inodes[ino].size {
      WrittenSize(s, m, ino, off, src[..i]);
      if r >= 0 { ChunkPut(g, s, m, s', logged, ino, off, src, i, n1, chunk, r); }
      if r == n1 {
        NextChunk(i, n, n1);
      } else {
        ShortChunk(s', ino, off, n, i, r, src, chunk);
        ChunkShort(g, s, s', ino, off, src, if r >= 0 then i + n1 else i, n, if r > 0 then i + r else i);
      }
    } else {
      Closed(s, ino, off, n, |src|);
    }
  }

  lemma Closed(s: St, ino: nat, off: nat, n: nat, len: nat)
    requires ino in s.inodes && off > s.inodes[ino].size
    ensures !AllWhen(s, ino, off, n, len)
  {
  }

  lemma NextChunk(i: nat, n: nat, n1: nat)
    requires i % CHUNK == 0 && i < n && n1 == if n - i > CHUNK then CHUNK else n - i
    ensures i + n1 < n ==> (i + n1) % CHUNK == 0
  {
  }

  /** A chunk that was not written whole tells why. */
  lemma ShortChunk(s': St, ino: nat, off: nat, n: nat, i: nat, r: int, src: seq<Byte>, chunk: seq<Byte>)
    requires i % CHUNK == 0 && i < n && i <= |src|
    requires var n1 := if n - i > CHUNK then CHUNK else n - i;
             && chunk == Readable(src, i, n1) && -1 <= r < n1
             && (r == -1 ==> off + i + n1 > MAXFILE * BSIZE)
             && (r >= 0 ==> Stopped(s', ino, off + i, n1, r, |chunk|))
    ensures WhyShort(s', ino, off, n, if r > 0 then i + r else i, |src|)
  {
    hide NoneFree, Addr;
    ChunkAt(i, if r > 0 then r else 0, n);
  }
}
