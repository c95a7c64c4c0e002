/** The growable NUL-terminated byte buffer of src/core.c. */
module StringBuffers {
  import opened Words
  import opened CStrings
  import opened Growth

  class StringBuffer {
    /** `str`, with `capacity` = `str.Length`. */
    var str: array<Byte>
    var count: nat

    /** Room for the terminator, and everything from `count` on is zero (calloc and
        the memset after each realloc keep it so), so `str` is always a C string. */
    ghost predicate Valid()
      reads this, str
    {
      count < str.Length &&
      forall i | count <= i < str.Length :: str[i] == NUL
    }

    ghost function Contents(): seq<Byte>
      reads this, str
      requires Valid()
    {
      str[..count]
    }

    /** `init_string_buffer` (src/core.c:41-45) on a zero-initialised buffer: `calloc`
        of `initial_capacity + 1` bytes.  Every caller hands it a buffer whose `count`
        is already 0 (`= {0}` or `free_string_buffer`). */
    constructor (initialCapacity: nat)
      ensures Valid() && fresh(str)
      ensures str.Length == initialCapacity + 1
      ensures Contents() == []
    {
      str := new Byte[initialCapacity + 1](_ => NUL);
      count := 0;
    }

    /** `grow_string_buffer_to_fit` (src/core.c:62-77). */
    method GrowToFit(newElements: nat)
      requires Valid()
      modifies this
      ensures Valid()
      ensures Contents() == old(Contents())
      ensures str.Length == if old(str.Length) >= count + newElements + 1 then old(str.Length)
                            else DoubleUntil(2 * old(str.Length), count + newElements + 1)
      ensures str.Length >= count + newElements + 1
      ensures old(str.Length) >= count + newElements + 1 ==> str == old(str)
      ensures str != old(str) ==> fresh(str)
    {
      var neededSpace := count + newElements + 1;
      if str.Length < neededSpace {
        var newCapacity := str.Length * 2;
        while newCapacity < neededSpace
          invariant newCapacity > 0
          invariant DoubleUntil(newCapacity, neededSpace) == DoubleUntil(2 * str.Length, neededSpace)
          decreases neededSpace - newCapacity
        {
          newCapacity := newCapacity * 2;
        }
        // realloc keeps the old bytes; the memset clears everything from count on
        var grown := new Byte[newCapacity](_ => NUL);
        forall i | 0 <= i < str.Length {
          grown[i] := str[i];
        }
        forall i | count <= i < newCapacity {
          grown[i] := NUL;
        }
        str := grown;
        DoubleUntilIsLeast(2 * old(str.Length), neededSpace);
      }
    }

    /** `append_string_buffer` (src/core.c:52-60): the C string `s` is added at the end. */
    method Append(s: Key)
      requires Valid()
      modifies this, str
      ensures Valid()
      ensures Contents() == old(Contents()) + s
      ensures str.Length >= count + 1
      ensures str != old(str) ==> fresh(str)
    {
      GrowToFit(|s|);
      forall i | 0 <= i < |s| {
        str[count + i] := s[i];
      }
      count := count + |s|;
    }

    /** `append_char_string_buffer` (src/core.c:79-84). */
    method AppendChar(c: Byte)
      requires Valid()
      modifies this, str
      ensures Valid()
      ensures Contents() == old(Contents()) + [c]
      ensures str.Length >= count + 1
      ensures old(str.Length) >= old(count) + 2 ==> str == old(str)
      ensures str != old(str) ==> fresh(str)
    {
      GrowToFit(1);
      str[count] := c;
      count := count + 1;
    }

    /** The C string `str` denotes, which is what `strlen`, `strcmp` and the hash
        function see. */
    method Text() returns (t: Key)
      requires Valid()
      ensures t == CStr(Contents())
    {
      t := CStr(str[..count]);
    }
  }

  /** `strncmp(s, p, n) != 0`: some position below `n` differs, where the end of a C
      string reads as NUL and comparison stops at a common NUL. */
  function StrNCmpDiffers(s: Key, p: Key, n: nat): bool {
    if n == 0 then false
    else
      var c1 := if s == [] then NUL else s[0];
      var c2 := if p == [] then NUL else p[0];
      if c1 != c2 then true
      else if c1 == NUL then false
      else StrNCmpDiffers(s[1..], p[1..], n - 1)
  }

  lemma {:induction false} StrNCmpDiffersPrefix(s: Key, p: Key)
    ensures StrNCmpDiffers(s, p, |p|) <==> !(|p| <= |s| && s[..|p|] == p)
  {
    if p != [] {
      if s != [] && s[0] == p[0] {
        StrNCmpDiffersPrefix(s[1..], p[1..]);
        if |p| <= |s| {
          assert s[..|p|] == p <==> s[1..][..|p| - 1] == p[1..];
        }
      }
    }
  }

  /** `strbeingswith` (src/core.c:86-89) returns the `strncmp` result as a bool:
      it is true exactly when `str` does NOT begin with `prefix`. */
  function StrBeginsWith(str: Key, prefix: Key): (r: bool)
    ensures r <==> !(|prefix| <= |str| && str[..|prefix|] == prefix)
  {
    StrNCmpDiffersPrefix(str, prefix);
    StrNCmpDiffers(str, prefix, |prefix|)
  }

  /** The test the name promises, `strncmp(str, prefix, strlen(prefix)) == 0`. */
  function BeginsWith(str: Key, prefix: Key): (r: bool)
    ensures r <==> |prefix| <= |str| && str[..|prefix|] == prefix
  {
    StrNCmpDiffersPrefix(str, prefix);
    !StrNCmpDiffers(str, prefix, |prefix|)
  }

  /** "ab" begins with "a", yet `strbeingswith("ab", "a")` is false, and it is true for
      "b" and "a". */
  lemma StrBeginsWithInverted()
    ensures !StrBeginsWith([0x61, 0x62], [0x61]) && BeginsWith([0x61, 0x62], [0x61])
    ensures StrBeginsWith([0x62], [0x61]) && !BeginsWith([0x62], [0x61])
  {
  }
}
