/** Types shared by every component, and the little-endian `u32` encoding used for queue indices. */
module Primitives {

  datatype Option<+T> = None | Some(value: T)

  datatype Result<+T, +E> = Ok(value: T) | Err(error: E)

  type byte = x: int | 0 <= x < 256

  type Bytes = seq<byte>

  /** A 256-bit hash: contract names and request ids. */
  type H256 = h: Bytes | |h| == 32 witness seq(32, _ => 0)

  /** Account ids are only ever compared. */
  type Account = nat

  const U32_LIMIT: nat := 0x1_0000_0000

  const U128_LIMIT: nat := 0x1_0000_0000_0000_0000_0000_0000_0000_0000

  function Min(a: int, b: int): int {
    if a <= b then a else b
  }

  function Max(a: int, b: int): int {
    if a <= b then b else a
  }

  /** `saturating_sub` on unsigned integers. */
  function SaturatingSub(a: nat, b: nat): nat {
    if a <= b then 0 else a - b
  }

  function EncodeU32(n: nat): (b: Bytes)
    requires n < U32_LIMIT
    ensures |b| == 4
  {
    [n % 0x100, n / 0x100 % 0x100, n / 0x1_0000 % 0x100, n / 0x100_0000]
  }

  /** Reads a `u32` from the front of `b`; bytes after the first four are ignored. */
  function DecodeU32(b: Bytes): (r: Option<nat>)
    ensures r.Some? <==> |b| >= 4
    ensures r.Some? ==> r.value < U32_LIMIT
  {
    if |b| < 4 then None
    else
      var b0: int, b1: int, b2: int, b3: int := b[0], b[1], b[2], b[3];
      Some(b0 + 0x100 * b1 + 0x1_0000 * b2 + 0x100_0000 * b3)
  }

  /** The bytes are the digits of the number to the base 256, the least significant first. */
  predicate Digits(b: Bytes, n: nat) {
    && |b| == 4
    && b[0] == n % 0x100
    && b[1] == n / 0x100 % 0x100
    && b[2] == n / 0x1_0000 % 0x100
    && b[3] == n / 0x100_0000
  }

  lemma U32Digits(b: Bytes, n: nat)
    requires n < U32_LIMIT && |b| >= 4
    ensures Digits(EncodeU32(n), n)
    ensures DecodeU32(b) == Some(n) <==> Digits(b[..4], n)
  {
    var b0: int, b1: int, b2: int, b3: int := b[0], b[1], b[2], b[3];
    var m1, m2 := b1 + 0x100 * b2 + 0x1_0000 * b3, b2 + 0x100 * b3;
    if DecodeU32(b) == Some(n) {
      assert n == b0 + 0x100 * m1 && m1 == b1 + 0x100 * m2;
      assert n / 0x100 == m1 && n % 0x100 == b0;
      assert m1 / 0x100 == m2 && m1 % 0x100 == b1;
      assert m2 / 0x100 == b3 && m2 % 0x100 == b2;
      assert n / 0x1_0000 == n / 0x100 / 0x100 && n / 0x100_0000 == n / 0x1_0000 / 0x100;
    }
    if Digits(b[..4], n) {
      assert b[..4] == EncodeU32(n);
      U32RoundTrip(n);
    }
  }

  lemma U32RoundTrip(n: nat)
    requires n < U32_LIMIT
    ensures DecodeU32(EncodeU32(n)) == Some(n)
  {
    assert n / 0x1_0000 == n / 0x100 / 0x100;
    assert n / 0x100_0000 == n / 0x1_0000 / 0x100;
  }

  /** The element of `s` at a prefix boundary: `s[..i + 1]` is `s[..i]` and one more element. */
  lemma PrefixStep<T>(s: seq<T>, i: nat)
    requires i < |s|
    ensures s[..i + 1] != [] && s[..i + 1][i] == s[i] && s[..i + 1][..i] == s[..i]
  {
  }

  lemma MultisetWithout<T>(s: seq<T>, i: nat)
    requires i < |s|
    ensures multiset(s[..i] + s[i + 1..]) == multiset(s) - multiset{s[i]}
  {
    assert s == s[..i] + [s[i]] + s[i + 1..];
  }
}
