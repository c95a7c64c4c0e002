/** The 64-bit FNV-1 hash of src/core.c:157-175, which the symbol table uses to pick a
    bucket. */
module Fnv {
  import opened Words
  import opened CStrings

  const FNV_OFFSET_BASIS: bv64 := 0xcbf29ce484222325

  /** The hash of a byte string: the offset basis, then one round per byte. */
  function Fnv1(s: seq<Byte>): bv64 {
    if s == [] then FNV_OFFSET_BASIS
    else Round(Fnv1(s[..|s| - 1]), s[|s| - 1])
  }

  /** One round as the source writes it: the shift-sum, then the byte exclusive-ored
      into the low bits. */
  function Round(h: bv64, b: Byte): bv64 {
    XorByte(ShiftSum(h), b)
  }

  /** `hval += (hval<<1) + (hval<<4) + (hval<<5) + (hval<<7) + (hval<<8) + (hval<<40)`. */
  function ShiftSum(h: bv64): bv64 {
    h + ((h << 1) + (h << 4) + (h << 5) + (h << 7) + (h << 8) + (h << 40))
  }

  /** `hval ^= (u64)*s`. */
  function XorByte(h: bv64, b: Byte): bv64 {
    h ^ (b as bv64)
  }

  lemma ShiftsAreMultiplies(h: bv64)
    ensures h << 1 == h * 0x2
    ensures h << 4 == h * 0x10
    ensures h << 5 == h * 0x20
    ensures h << 7 == h * 0x80
    ensures h << 8 == h * 0x100
    ensures h << 40 == h * 0x100_0000_0000
  {
  }

  lemma PartialSumsLow(h: bv64)
    ensures h * 0x2 + h * 0x10 == h * 0x12
    ensures h * 0x12 + h * 0x20 == h * 0x32
    ensures h * 0x32 + h * 0x80 == h * 0xb2
  {
  }

  lemma PartialSumsHigh(h: bv64)
    ensures h * 0xb2 + h * 0x100 == h * 0x1b2
    ensures h * 0x1b2 + h * 0x100_0000_0000 == h * 0x100_0000_01b2
    ensures h + h * 0x100_0000_01b2 == h * 0x100_0000_01b3
  {
  }

  /** 0x100000001b3 = 2^40 + 2^8 + 2^7 + 2^5 + 2^4 + 2^1 + 1, so the shift-sum is the
      multiplication by the FNV prime modulo 2^64. */
  lemma ShiftSumIsPrimeMultiply(h: bv64)
    ensures ShiftSum(h) == h * 0x100_0000_01b3
  {
    ShiftsAreMultiplies(h);
    PartialSumsLow(h);
    PartialSumsHigh(h);
  }

  /** Each round is the FNV-1 step of the published algorithm: multiply by the 64-bit
      FNV prime 0x100000001b3 modulo 2^64, then exclusive-or the byte. */
  lemma RoundIsFnv1Step(h: bv64, b: Byte)
    ensures Round(h, b) == XorByte(h * 0x100_0000_01b3, b)
  {
    ShiftSumIsPrimeMultiply(h);
  }

  lemma Fnv1Prefix(s: seq<Byte>, i: nat)
    requires i < |s|
    ensures Fnv1(s[..i + 1]) == Round(Fnv1(s[..i]), s[i])
  {
    assert s[..i + 1][..i] == s[..i];
  }

  lemma Fnv1Whole(s: seq<Byte>)
    ensures Fnv1(s[..|s|]) == Fnv1(s)
  {
    assert s[..|s|] == s;
  }

  /** `hash_string` (src/core.c:157-175), over the bytes before the terminator. */
  method HashString(key: Key) returns (h: bv64)
    ensures h == Fnv1(key)
  {
    h := FNV_OFFSET_BASIS;
    var i := 0;
    while i < |key|
      invariant 0 <= i <= |key|
      invariant h == Fnv1(key[..i])
    {
      Fnv1Prefix(key, i);
      h := ShiftSum(h);
      h := XorByte(h, key[i]);
      i := i + 1;
    }
    Fnv1Whole(key);
  }
}
