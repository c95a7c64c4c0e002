/** C strings as the source uses them: a `char *` denotes the bytes before the first
    NUL.  `Key` is the type of such a byte string (no NUL inside), the form in which
    the source passes names and literals to `strlen`, `strcpy` and `strcmp`. */
module CStrings {
  import opened Words

  const NUL: Byte := 0

  type Key = s: seq<Byte> | forall i | 0 <= i < |s| :: s[i] != 0

  /** The C string a NUL-terminated buffer holds: the bytes before its first NUL. */
  function CStr(s: seq<Byte>): Key {
    if s == [] then []
    else if s[0] == NUL then []
    else [s[0]] + CStr(s[1..])
  }

  /** `CStr(s)` is the prefix of `s` that ends at the first NUL, or all of `s`. */
  lemma {:induction false} CStrIsPrefix(s: seq<Byte>)
    ensures var r := CStr(s); |r| <= |s| && r == s[..|r|] && (|r| < |s| ==> s[|r|] == NUL)
  {
    if s != [] && s[0] != NUL {
      CStrIsPrefix(s[1..]);
    }
  }

  lemma {:induction false} CStrOfKey(k: Key)
    ensures CStr(k) == k
  {
    if k != [] {
      CStrOfKey(k[1..]);
    }
  }

  lemma {:induction false} CStrOfTerminated(k: Key, rest: seq<Byte>)
    ensures CStr(k + [NUL] + rest) == k
  {
    if k != [] {
      assert (k + [NUL] + rest)[1..] == k[1..] + [NUL] + rest;
      CStrOfTerminated(k[1..], rest);
    }
  }

  /** `isspace` in the C locale: space, \t, \n, \v, \f and \r. */
  predicate IsSpace(c: Byte) {
    c == 32 || 9 <= c <= 13
  }

  const LF: Byte := 10
  const CR: Byte := 13
}
