/**
 Sv39 address arithmetic (RISC-V privileged architecture, section 4.4): page
 numbers, the three nine-bit indices of a virtual page, and page-table entries.
 A table of level l covers the virtual pages that share everything above their
 level-l index; that shared part is the table's prefix.
 */
module Sv39 {

  const PGSIZE := 4096
  const PTES := 512
  const MAXPAGES := 67108864        // MAXVA / PGSIZE == 2^26

  /** The part of virtual page v above its level-l index. */
  function Prefix(v: nat, l: nat): nat {
    if l == 0 then v / PTES else Prefix(v, l - 1) / PTES
  }

  /** PX(level, va) */
  function Px(l: nat, v: nat): (i: nat)
    ensures i < PTES
  {
    (if l == 0 then v else Prefix(v, l - 1)) % PTES
  }

  /** The index picks, among the children of a table, the one whose prefix continues the table's. */
  lemma PrefixStep(v: nat, l: nat)
    ensures Prefix(v, l) * PTES + Px(l, v) == if l == 0 then v else Prefix(v, l - 1)
  {
  }

  /** Below MAXVA everything is under the one table of level 2. */
  lemma RootPrefix(v: nat)
    requires v < MAXPAGES
    ensures Prefix(v, 2) == 0
  {
    assert Prefix(v, 1) == Prefix(v, 0) / PTES && Prefix(v, 2) == Prefix(v, 1) / PTES;
  }

  /** PX is injective: the three indices determine the page. */
  lemma IndicesInjective(u: nat, v: nat)
    requires u < MAXPAGES && v < MAXPAGES
    requires forall l :: 0 <= l <= 2 ==> Px(l, u) == Px(l, v)
    ensures u == v
  {
    RootPrefix(u);
    RootPrefix(v);
    PrefixStep(u, 2);
    PrefixStep(v, 2);
    PrefixStep(u, 1);
    PrefixStep(v, 1);
    PrefixStep(u, 0);
    PrefixStep(v, 0);
    assert Px(2, u) == Px(2, v) && Px(1, u) == Px(1, v) && Px(0, u) == Px(0, v);
  }

  // Page-table entries: page number in bits 10 and up, ten flag bits below.
  const FLAGS := 1024
  const V := 1
  const R := 2
  const W := 4
  const X := 8
  const U := 16

  function Pte(ppn: nat, flags: nat): nat
    requires flags < FLAGS
  {
    ppn * FLAGS + flags
  }

  function Ppn(pte: nat): nat {
    pte / FLAGS
  }

  function Flags(pte: nat): (f: nat)
    ensures f < FLAGS
  {
    pte % FLAGS
  }

  /** One flag bit of an entry. */
  predicate Bit(pte: nat, b: nat)
    requires b > 0
  {
    (pte / b) % 2 == 1
  }

  predicate Valid(pte: nat) {
    pte % 2 == 1
  }

  /** Readable, writable or executable: an entry that maps a page, not a table. */
  predicate MapsPage(pte: nat) {
    Bit(pte, R) || Bit(pte, W) || Bit(pte, X)
  }

  /** flags | PTE_V */
  function WithV(flags: nat): (f: nat)
    requires flags < FLAGS
    ensures f < FLAGS
  {
    if flags % 2 == 1 then flags else flags + 1
  }

  /** Encoding and decoding are inverse. */
  lemma PteRoundTrip(ppn: nat, flags: nat)
    requires flags < FLAGS
    ensures Ppn(Pte(ppn, flags)) == ppn && Flags(Pte(ppn, flags)) == flags
    ensures Valid(Pte(ppn, flags)) <==> flags % 2 == 1
  {
  }

  lemma FlagBits(ppn: nat, flags: nat)
    requires flags < FLAGS
    ensures MapsPage(Pte(ppn, flags)) == MapsPage(flags) && Bit(Pte(ppn, flags), U) == Bit(flags, U)
            && Bit(Pte(ppn, flags), W) == Bit(flags, W)
  {
    hide Bit, Pte;
    BitOfPte(ppn, flags, R, 512);
    BitOfPte(ppn, flags, W, 256);
    BitOfPte(ppn, flags, X, 128);
    BitOfPte(ppn, flags, U, 64);
  }

  lemma BitOfPte(ppn: nat, flags: nat, b: nat, c: nat)
    requires flags < FLAGS && (b, c) in {(R, 512), (W, 256), (X, 128), (U, 64)}
    ensures Bit(Pte(ppn, flags), b) == Bit(flags, b)
  {
    assert Pte(ppn, flags) / b == ppn * c + flags / b;
  }

  lemma WithVBits(flags: nat)
    requires flags < FLAGS
    ensures MapsPage(WithV(flags)) == MapsPage(flags) && Bit(WithV(flags), U) == Bit(flags, U)
            && Bit(WithV(flags), W) == Bit(flags, W)
    ensures WithV(flags) % 2 == 1
  {
  }

  lemma PteDecode(pte: nat)
    ensures pte == Pte(Ppn(pte), Flags(pte)) && (Valid(pte) <==> Flags(pte) % 2 == 1)
    ensures MapsPage(pte) == MapsPage(Flags(pte)) && Bit(pte, U) == Bit(Flags(pte), U)
            && Bit(pte, W) == Bit(Flags(pte), W)
  {
    FlagBits(Ppn(pte), Flags(pte));
  }

  /** PGROUNDUP, in pages */
  function PagesFor(sz: nat): nat {
    (sz + PGSIZE - 1) / PGSIZE
  }
}
