/**
 * NUL-terminated C strings as the loader lays them out in memory, and
 * `CStr::from_ptr(p).to_bytes()`: the bytes of the string before its first NUL.
 */
module CStr {

  /** One byte of an OS-native string; arguments carry no assumed encoding. */
  newtype byte = x: int | 0 <= x < 0x100

  const NUL: byte := 0

  /**
   * The memory a `char *` points at holds a NUL somewhere: this is what
   * `CStr::from_ptr` demands of its argument.
   */
  predicate NulTerminated(s: seq<byte>) {
    NUL in s
  }

  /**
   * The bytes of the C string at the start of `s`: everything up to, and not
   * including, the first NUL.
   */
  function ToBytes(s: seq<byte>): (r: seq<byte>)
    requires NulTerminated(s)
    ensures |r| < |s| && r == s[..|r|]
    ensures s[|r|] == NUL
    ensures NUL !in r
  {
    if s[0] == NUL then [] else [s[0]] + ToBytes(s[1..])
  }

  /**
   * The three properties of `ToBytes` single out its result: any prefix of
   * `s` that is free of NUL and is followed by a NUL is that result.
   */
  lemma {:induction false} ToBytesUnique(s: seq<byte>, p: seq<byte>)
    requires |p| < |s| && p == s[..|p|] && s[|p|] == NUL && NUL !in p
    ensures NulTerminated(s) && ToBytes(s) == p
  {
    assert s[|p|] in s;
    if p != [] {
      assert s[0] == p[0];
      assert p[1..] == s[1..][..|p| - 1];
      ToBytesUnique(s[1..], p[1..]);
    }
  }

  /**
   * Writing a NUL-free byte string followed by its terminator and reading it
   * back with `ToBytes` gives the byte string again, whatever follows.
   */
  lemma {:induction false} ToBytesOfTerminated(b: seq<byte>, rest: seq<byte>)
    requires NUL !in b
    ensures NulTerminated(b + [NUL] + rest)
    ensures ToBytes(b + [NUL] + rest) == b
  {
    var s := b + [NUL] + rest;
    assert s[..|b|] == b;
    ToBytesUnique(s, b);
  }
}
