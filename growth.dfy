/** Capacity doubling, shared by the two growable buffers of the source: the string
    buffer of src/core.c and the instruction array of src/program_builder.c. */
module Growth {
  /** The capacity a doubling loop settles on, starting from `c` and doubling while
      it is below `needed`. */
  function DoubleUntil(c: nat, needed: nat): (r: nat)
    requires c > 0
    decreases needed - c
  {
    if c >= needed then c else DoubleUntil(2 * c, needed)
  }

  function Pow2(k: nat): (r: nat)
    ensures r > 0
  {
    if k == 0 then 1 else 2 * Pow2(k - 1)
  }

  /** The doubling stops at the first power-of-two multiple of `c` that reaches
      `needed`: it is enough, it is a doubling of `c`, and halving it would not be. */
  lemma {:induction false} DoubleUntilIsLeast(c: nat, needed: nat)
    requires c > 0
    ensures DoubleUntil(c, needed) >= needed
    ensures exists k: nat :: DoubleUntil(c, needed) == c * Pow2(k)
    ensures DoubleUntil(c, needed) == c || DoubleUntil(c, needed) < 2 * needed
    decreases needed - c
  {
    if c >= needed {
      assert c == c * Pow2(0);
    } else {
      DoubleUntilIsLeast(2 * c, needed);
      var k: nat :| DoubleUntil(2 * c, needed) == 2 * c * Pow2(k);
      assert DoubleUntil(c, needed) == c * Pow2(k + 1);
    }
  }
}
