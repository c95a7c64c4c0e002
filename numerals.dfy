/** The C library's number-to-text and text-to-number conversions the core relies on:
    `printf("%llu", ..)` (the VM's DBG opcode) and `strtoull(.., NULL, 0)` (the
    assembler's numeric operands). */
module Numerals {
  import opened Words
  import opened CStrings

  const ZERO_CHAR: Byte := 48

  /** The decimal digits `printf("%llu")` writes for `n`. */
  function Decimal(n: nat): (r: seq<Byte>)
    ensures |r| > 0
    ensures forall i | 0 <= i < |r| :: ZERO_CHAR <= r[i] <= ZERO_CHAR + 9
    ensures n > 0 ==> r[0] != ZERO_CHAR
  {
    if n < 10 then [ZERO_CHAR + n] else Decimal(n / 10) + [ZERO_CHAR + n % 10]
  }

  /** The value of a digit character in bases up to 36, or -1. */
  function DigitValue(c: Byte): int {
    if 48 <= c <= 57 then c - 48
    else if 97 <= c <= 122 then c - 97 + 10
    else if 65 <= c <= 90 then c - 65 + 10
    else -1
  }

  predicate IsDigitIn(c: Byte, base: nat) {
    0 <= DigitValue(c) < base
  }

  /** The character a digit value is written as: `0`-`9`, then lower-case letters. */
  function DigitChar(d: nat): Byte
    requires d < 36
  {
    if d < 10 then ZERO_CHAR + d else 97 + (d - 10)
  }

  /** `DigitValue` reads back what `DigitChar` writes. */
  lemma DigitValueOfChar(d: nat)
    requires d < 36
    ensures DigitValue(DigitChar(d)) == d
  {
  }

  /** The digits of `n` in `base`, most significant first, without leading zeros. */
  function Digits(n: nat, base: nat): (r: seq<Byte>)
    requires 2 <= base <= 36
    ensures |r| > 0
    ensures forall i | 0 <= i < |r| :: IsDigitIn(r[i], base)
    decreases n
  {
    DigitValueOfChar(n % base);
    if n < base then [DigitChar(n)]
    else
      QuotientRemainder(n, base);
      Digits(n / base, base) + [DigitChar(n % base)]
  }

  /** The value of the longest prefix of `s` made of digits of `base`, read into
      the accumulator `acc`, without any bound (the caller saturates). */
  function Accumulate(s: seq<Byte>, base: nat, acc: nat): nat {
    if s == [] || !IsDigitIn(s[0], base) then acc
    else Accumulate(s[1..], base, acc * base + DigitValue(s[0]))
  }

  function SkipLeadingSpaces(s: seq<Byte>): (r: seq<Byte>)
    ensures r != [] ==> !IsSpace(r[0])
  {
    if s != [] && IsSpace(s[0]) then SkipLeadingSpaces(s[1..]) else s
  }

  const MINUS: Byte := 45
  const PLUS: Byte := 43

  /** `strtoull(s, NULL, 0)`: leading white space, an optional sign, then the
      magnitude; a magnitude above `ULLONG_MAX` gives `ULLONG_MAX`; a minus sign
      negates modulo 2^64. */
  function StrToULL(s: seq<Byte>): (r: U64) {
    var t := SkipLeadingSpaces(s);
    var magnitude := Magnitude(Unsigned(t));
    if magnitude >= U64_MODULUS then U64_MODULUS - 1
    else if t != [] && t[0] == MINUS then Wrap(-(magnitude as int))
    else magnitude
  }

  /** The text after an optional sign. */
  function Unsigned(t: seq<Byte>): seq<Byte> {
    if t != [] && (t[0] == MINUS || t[0] == PLUS) then t[1..] else t
  }

  /** Base 16 after `0x`/`0X`, base 8 after a leading `0`, base 10 otherwise; the
      longest valid digit prefix is converted, and none converts to 0. */
  function Magnitude(u: seq<Byte>): nat {
    var hex := |u| >= 2 && u[0] == ZERO_CHAR && (u[1] == 120 || u[1] == 88);
    var base := if hex then 16 else if u != [] && u[0] == ZERO_CHAR then 8 else 10;
    var digits := if hex then u[2..] else u;
    Accumulate(digits, base, 0)
  }

  lemma {:induction false} AccumulateDigitsThenEnd(s: seq<Byte>, d: Byte, base: nat, acc: nat)
    requires forall i | 0 <= i < |s| :: IsDigitIn(s[i], base)
    requires IsDigitIn(d, base)
    ensures Accumulate(s + [d], base, acc) == Accumulate(s, base, acc) * base + DigitValue(d)
  {
    if s != [] {
      assert (s + [d])[1..] == s[1..] + [d];
      AccumulateDigitsThenEnd(s[1..], d, base, acc * base + DigitValue(s[0]));
    }
  }

  lemma {:induction false} AccumulateDecimal(n: nat)
    ensures Accumulate(Decimal(n), 10, 0) == n
  {
    if n >= 10 {
      AccumulateDecimal(n / 10);
      AccumulateDigitsThenEnd(Decimal(n / 10), ZERO_CHAR + n % 10, 10, 0);
    }
  }

  /** Division by a base of at least 2 splits `n` into a smaller quotient and a
      remainder. */
  lemma QuotientRemainder(n: nat, base: nat)
    requires 2 <= base <= n
    ensures n == n / base * base + n % base && n / base < n
  {
    var q := n / base;
    assert n == q * base + n % base;
    assert q * base == q * 2 + q * (base - 2);
    assert q * (base - 2) >= 0;
  }

  /** The digits of `n` in any base read back to `n` in that base. */
  lemma {:induction false} AccumulateDigits(n: nat, base: nat)
    requires 2 <= base <= 36
    ensures Accumulate(Digits(n, base), base, 0) == n
    decreases n
  {
    if n >= base {
      var q, r := n / base, n % base;
      QuotientRemainder(n, base);
      var front := Digits(q, base);
      assert Digits(n, base) == front + [DigitChar(r)];
      DigitValueOfChar(r);
      AccumulateDigits(q, base);
      AccumulateDigitsThenEnd(front, DigitChar(r), base, 0);
      assert Accumulate(Digits(n, base), base, 0) == q * base + r;
    } else {
      DigitValueOfChar(n);
      assert Digits(n, base) == [DigitChar(n)];
      assert Digits(n, base)[1..] == [];
    }
  }

  /** The conversion stops at the first character that is not a digit of the base:
      whatever follows a run of digits does not change its value. */
  lemma {:induction false} AccumulateStopsAtNonDigit(s: seq<Byte>, rest: seq<Byte>, base: nat, acc: nat)
    requires forall i | 0 <= i < |s| :: IsDigitIn(s[i], base)
    requires rest == [] || !IsDigitIn(rest[0], base)
    ensures Accumulate(s + rest, base, acc) == Accumulate(s, base, acc)
  {
    if s == [] {
      assert s + rest == rest;
    } else {
      assert (s + rest)[1..] == s[1..] + rest;
      AccumulateStopsAtNonDigit(s[1..], rest, base, acc * base + DigitValue(s[0]));
    }
  }

  /** The decimal text of every number, `0` included, is read back by the base
      detection of `strtoull`, whatever non-digit follows it (other than an `x` after
      a lone `0`, which would make it a hexadecimal prefix). */
  lemma MagnitudeOfDecimal(n: nat, rest: seq<Byte>)
    requires rest == [] || !IsDigitIn(rest[0], 10)
    requires n == 0 && rest != [] ==> rest[0] != 120 && rest[0] != 88
    ensures Magnitude(Decimal(n) + rest) == n
  {
    var d := Decimal(n);
    var u := d + rest;
    assert forall i | 0 <= i < |d| :: IsDigitIn(d[i], 10);
    if n == 0 {
      assert d == [ZERO_CHAR];
      assert u[1..] == rest;
      assert Accumulate(u, 8, 0) == Accumulate(rest, 8, 0);
    } else {
      assert u[0] == d[0] != ZERO_CHAR;
      AccumulateStopsAtNonDigit(d, rest, 10, 0);
      AccumulateDecimal(n);
    }
  }

  /** What DBG prints for a word is read back to that word by the assembler's
      numeric operand parser. */
  lemma StrToULLOfDecimal(n: U64)
    ensures StrToULL(Decimal(n)) == n
  {
    var s := Decimal(n);
    assert s + [] == s;
    MagnitudeOfDecimal(n, []);
    assert SkipLeadingSpaces(s) == s by {
      assert !IsSpace(s[0]);
    }
    assert Unsigned(s) == s;
  }

  /** A run of decimal digits is converted up to the first character that is not
      a digit: `12abc` reads as 12. */
  lemma StrToULLOfDecimalPrefix(n: U64, rest: seq<Byte>)
    requires rest == [] || !IsDigitIn(rest[0], 10)
    requires n == 0 && rest != [] ==> rest[0] != 120 && rest[0] != 88
    ensures StrToULL(Decimal(n) + rest) == n
  {
    var s := Decimal(n) + rest;
    MagnitudeOfDecimal(n, rest);
    assert s[0] == Decimal(n)[0];
    assert SkipLeadingSpaces(s) == s by {
      assert !IsSpace(s[0]);
    }
    assert Unsigned(s) == s;
  }

  /** A `-` before the digits negates the value modulo 2^64. */
  lemma StrToULLOfNegative(n: U64)
    ensures StrToULL([MINUS] + Decimal(n)) == Wrap(-(n as int))
  {
    var s := [MINUS] + Decimal(n);
    assert SkipLeadingSpaces(s) == s;
    assert Unsigned(s) == Decimal(n);
    assert Decimal(n) + [] == Decimal(n);
    MagnitudeOfDecimal(n, []);
  }

  /** `0x` followed by the hexadecimal digits of a word reads as that word. */
  lemma StrToULLOfHex(n: U64)
    ensures StrToULL([ZERO_CHAR, 120] + Digits(n, 16)) == n
  {
    var s := [ZERO_CHAR, 120] + Digits(n, 16);
    assert SkipLeadingSpaces(s) == s;
    assert Unsigned(s) == s;
    assert s[2..] == Digits(n, 16);
    AccumulateDigits(n, 16);
  }

  /** A leading `0` followed by the octal digits of a word reads as that word. */
  lemma StrToULLOfOctal(n: U64)
    ensures StrToULL([ZERO_CHAR] + Digits(n, 8)) == n
  {
    var o := Digits(n, 8);
    var s := [ZERO_CHAR] + o;
    assert SkipLeadingSpaces(s) == s;
    assert Unsigned(s) == s;
    assert IsDigitIn(o[0], 8);
    assert s[1] == o[0] && s[1] != 120 && s[1] != 88;
    assert s[1..] == o;
    AccumulateDigits(n, 8);
  }

  /** A magnitude beyond `ULLONG_MAX` saturates to `ULLONG_MAX`, with or without a
      sign. */
  lemma StrToULLSaturates(n: nat, sign: seq<Byte>)
    requires n >= U64_MODULUS
    requires sign == [] || sign == [MINUS] || sign == [PLUS]
    ensures StrToULL(sign + Decimal(n)) == U64_MODULUS - 1
  {
    var s := sign + Decimal(n);
    assert SkipLeadingSpaces(s) == s by {
      assert !IsSpace(s[0]);
    }
    assert Unsigned(s) == Decimal(n);
    assert Decimal(n) + [] == Decimal(n);
    MagnitudeOfDecimal(n, []);
  }

  /** The bytes a text keeps after its leading white space are its own last bytes. */
  lemma {:induction false} SkipLeadingSpacesSuffix(s: seq<Byte>)
    ensures var t := SkipLeadingSpaces(s); |t| <= |s| && t == s[|s| - |t|..]
  {
    if s != [] && IsSpace(s[0]) {
      SkipLeadingSpacesSuffix(s[1..]);
    }
  }

  /** A text without a decimal digit converts to 0. */
  lemma StrToULLWithoutDigits(s: seq<Byte>)
    requires forall i | 0 <= i < |s| :: !IsDigitIn(s[i], 10)
    ensures StrToULL(s) == 0
  {
    var t := SkipLeadingSpaces(s);
    SkipLeadingSpacesSuffix(s);
    var u := Unsigned(t);
    if u != [] {
      var k := if u == t then 0 else 1;
      assert u[0] == t[k] == s[|s| - |t| + k];
      assert !IsDigitIn(u[0], 10);
      assert u[0] != ZERO_CHAR;
    }
  }
}
