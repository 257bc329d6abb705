/** Bit vectors kept in bytes, as the buddy allocator keeps its alloc and split bits. */
module Bits {

  type Bytes = seq<bv8>

  function Mask(i: nat): bv8
    requires i < 8
  {
    if i == 0 then 1 else if i == 1 then 2 else if i == 2 then 4 else if i == 3 then 8
    else if i == 4 then 16 else if i == 5 then 32 else if i == 6 then 64 else 128
  }

  /** Bit i is in the vector. */
  predicate Has(v: Bytes, i: nat) {
    i / 8 < |v|
  }

  predicate IsSet(v: Bytes, i: nat)
    requires Has(v, i)
  {
    v[i / 8] & Mask(i % 8) == Mask(i % 8)
  }

  function Set(v: Bytes, i: nat): (r: Bytes)
    requires Has(v, i)
    ensures |r| == |v|
  {
    v[i / 8 := v[i / 8] | Mask(i % 8)]
  }

  function Clear(v: Bytes, i: nat): (r: Bytes)
    requires Has(v, i)
    ensures |r| == |v|
  {
    v[i / 8 := v[i / 8] & !Mask(i % 8)]
  }

  lemma MaskOr(b: bv8, x: nat, y: nat)
    requires x < 8 && y < 8
    ensures (b | Mask(x)) & Mask(y) == Mask(y) <==> x == y || b & Mask(y) == Mask(y)
  {
  }

  lemma MaskAndNot(b: bv8, x: nat, y: nat)
    requires x < 8 && y < 8
    ensures (b & !Mask(x)) & Mask(y) == Mask(y) <==> x != y && b & Mask(y) == Mask(y)
  {
  }

  /** Setting or clearing a bit changes that bit and no other. */
  lemma SetBit(v: Bytes, i: nat, j: nat)
    requires Has(v, i) && Has(v, j)
    ensures IsSet(Set(v, i), j) <==> i == j || IsSet(v, j)
  {
    if i / 8 == j / 8 { MaskOr(v[i / 8], i % 8, j % 8); }
  }

  lemma ClearBit(v: Bytes, i: nat, j: nat)
    requires Has(v, i) && Has(v, j)
    ensures IsSet(Clear(v, i), j) <==> i != j && IsSet(v, j)
  {
    if i / 8 == j / 8 { MaskAndNot(v[i / 8], i % 8, j % 8); }
  }

  lemma ZeroBit(v: Bytes, i: nat)
    requires Has(v, i) && v[i / 8] == 0
    ensures !IsSet(v, i)
  {
  }

  lemma OnesBit(v: Bytes, i: nat)
    requires Has(v, i) && v[i / 8] == 0xff
    ensures IsSet(v, i)
  {
  }
}
