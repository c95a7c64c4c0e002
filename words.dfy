/** Machine integers of the source (`u8`, `u64`, `usize`) and the byte layout of the
    `memcpy` word copies.  The source copies a `u64` to and from byte storage with
    `memcpy`; the model fixes that layout as little-endian. */
module Words {

  type Byte = b: int | 0 <= b < 256

  const U64_MODULUS: int := 0x1_0000_0000_0000_0000

  type U64 = x: int | 0 <= x < 0x1_0000_0000_0000_0000

  /** Reduction of a mathematical integer to `u64` (C unsigned wrap-around). */
  function Wrap(x: int): (r: U64)
    ensures 0 <= x < U64_MODULUS ==> r == x
    ensures -U64_MODULUS <= x < 0 ==> r == x + U64_MODULUS
  {
    x % U64_MODULUS
  }

  function Pow256(n: nat): (r: nat)
    ensures r > 0
  {
    if n == 0 then 1 else 256 * Pow256(n - 1)
  }

  /** The number denoted by bytes stored least significant first. */
  function LeValue(s: seq<Byte>): nat {
    if s == [] then 0 else s[0] + 256 * LeValue(s[1..])
  }

  /** The `n` low bytes of `v`, least significant first. */
  function LeBytes(v: nat, n: nat): (r: seq<Byte>)
    ensures |r| == n
  {
    if n == 0 then [] else [v % 256] + LeBytes(v / 256, n - 1)
  }

  lemma {:induction false} LeValueBound(s: seq<Byte>)
    ensures LeValue(s) < Pow256(|s|)
  {
    if s != [] {
      LeValueBound(s[1..]);
    }
  }

  lemma ModSplit(v: nat, b: nat)
    requires b > 0
    ensures v % (256 * b) == v % 256 + 256 * ((v / 256) % b)
  {
    var q := v / 256;
    var r := v % 256;
    assert v == 256 * q + r;
    var q2 := q / b;
    var r2 := q % b;
    assert q == b * q2 + r2;
    assert v == (256 * b) * q2 + (256 * r2 + r) by {
      calc {
        v;
        256 * q + r;
        256 * (b * q2 + r2) + r;
        { assert 256 * (b * q2) == (256 * b) * q2; }
        (256 * b) * q2 + (256 * r2 + r);
      }
    }
    assert 0 <= 256 * r2 + r < 256 * b;
    LemmaModUnique(v, 256 * b, q2, 256 * r2 + r);
  }

  lemma LemmaModUnique(v: int, m: int, q: int, r: int)
    requires m > 0 && 0 <= r < m && v == m * q + r
    ensures v % m == r
  {
    var q', r' := v / m, v % m;
    assert m * (q - q') == r' - r;
    if q > q' {
      MulAtLeast(m, q - q');
    } else if q < q' {
      MulAtLeast(m, q' - q);
    }
  }

  lemma MulAtLeast(m: int, k: int)
    requires m > 0 && k >= 1
    ensures m * k >= m
  {
  }

  /** Reading back what was written recovers the value modulo the width. */
  lemma {:induction false} LeValueOfBytes(v: nat, n: nat)
    ensures LeValue(LeBytes(v, n)) == v % Pow256(n)
  {
    if n > 0 {
      var s := LeBytes(v, n);
      assert s[1..] == LeBytes(v / 256, n - 1);
      LeValueOfBytes(v / 256, n - 1);
      ModSplit(v, Pow256(n - 1));
    }
  }

  /** Writing back what was read recovers the bytes. */
  lemma {:induction false} LeBytesOfValue(s: seq<Byte>)
    ensures LeBytes(LeValue(s), |s|) == s
  {
    if s != [] {
      var v := LeValue(s);
      assert v % 256 == s[0] && v / 256 == LeValue(s[1..]);
      LeBytesOfValue(s[1..]);
    }
  }

  /** Proof helper: eight bytes span exactly the `u64` range. */
  lemma Pow256Of8()
    ensures Pow256(8) == U64_MODULUS
  {
  }

  /** The eight bytes `memcpy` writes for a `u64`. */
  function WordBytes(v: U64): (r: seq<Byte>)
    ensures |r| == 8
    ensures LeValue(r) == v
  {
    LeValueOfBytes(v, 8);
    Pow256Of8();
    LeBytes(v, 8)
  }

  /** The `u64` that `memcpy` reads from eight bytes. */
  function WordValue(s: seq<Byte>): (r: U64)
    requires |s| == 8
    ensures WordBytes(r) == s
  {
    LeValueBound(s);
    Pow256Of8();
    LeBytesOfValue(s);
    LeValue(s)
  }

  /** Every word has exactly one byte image: the two conversions are inverse. */
  lemma {:induction false} WordRoundTrip(v: U64)
    ensures WordValue(WordBytes(v)) == v
  {
    var s := WordBytes(v);
    assert LeValue(WordBytes(WordValue(s))) == LeValue(s);
  }
}
