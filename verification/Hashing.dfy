/**
 * Bytes and hashing.
 *
 * Keccak-256 is a parameter: every definition takes a `Hasher`, so every theorem
 * holds of every function from byte strings to 32 bytes. Such a function always
 * has *some* collision, so "or there is a collision" would say nothing. The
 * soundness theorems therefore say that two of the byte strings which were
 * actually hashed collide: `CollisionIn(h, q)` for an explicit finite set `q`.
 */
module Hashing {

  type Byte = b: int | 0 <= b < 256
  type Bytes = seq<Byte>

  /** A 32-byte value: a Keccak digest or an EVM word. */
  type Digest = d: Bytes | |d| == 32 witness seq(32, _ => 0)

  type Hasher = Bytes -> Digest

  const TWO_256 := 0x1_0000000000000000_0000000000000000_0000000000000000_0000000000000000
  const TWO_64 := 0x1_0000000000000000
  const TWO_32 := 0x1_00000000

  type U256 = n: int | 0 <= n < TWO_256
  type U64 = n: int | 0 <= n < TWO_64
  type U32 = n: int | 0 <= n < TWO_32

  /** Two different byte strings with one hash. */
  ghost predicate Collides(h: Hasher, a: Bytes, b: Bytes) {
    a != b && h(a) == h(b)
  }

  /** Two members of `q` collide. */
  ghost predicate CollisionIn(h: Hasher, q: set<Bytes>) {
    exists a, b :: a in q && b in q && Collides(h, a, b)
  }

  lemma CollisionGrows(h: Hasher, q: set<Bytes>, r: set<Bytes>)
    requires CollisionIn(h, q) && q <= r
    ensures CollisionIn(h, r)
  {
  }

  /** Equal hashes of two hashed strings: the strings are equal or they collide. */
  lemma SameHash(h: Hasher, a: Bytes, b: Bytes, q: set<Bytes>)
    requires a in q && b in q && h(a) == h(b)
    ensures a == b || CollisionIn(h, q)
  {
    if a != b {
      assert Collides(h, a, b);
    }
  }

  /** Concatenations whose first parts have one length split only one way. */
  lemma SplitConcat(a: Bytes, b: Bytes, c: Bytes, d: Bytes)
    requires |a| == |c| && a + b == c + d
    ensures a == c && b == d
  {
    assert a == (a + b)[..|a|] == (c + d)[..|c|] == c;
    assert b == (a + b)[|a|..] == (c + d)[|c|..] == d;
  }

  /** Concatenations whose last parts have one length split only one way. */
  lemma SplitConcatRight(a: Bytes, b: Bytes, c: Bytes, d: Bytes)
    requires |b| == |d| && a + b == c + d
    ensures a == c && b == d
  {
    assert |a| == |c|;
    SplitConcat(a, b, c, d);
  }

  // ------------------------------------------------------------ EVM words

  /** The low `size` bytes of `n`, big-endian: `numberToHex(n, { size })`. */
  function BigEndian(n: nat, size: nat): (bytes: Bytes)
    ensures |bytes| == size
  {
    if size == 0 then [] else BigEndian(n / 256, size - 1) + [n % 256]
  }

  /** What `bytes` denotes, read big-endian. */
  function FromBigEndian(bytes: Bytes): nat {
    if bytes == [] then 0 else 256 * FromBigEndian(bytes[..|bytes| - 1]) + bytes[|bytes| - 1]
  }

  function Pow256(size: nat): nat {
    if size == 0 then 1 else 256 * Pow256(size - 1)
  }

  lemma {:induction false} BigEndianRoundTrip(n: nat, size: nat)
    requires n < Pow256(size)
    ensures FromBigEndian(BigEndian(n, size)) == n
  {
    if size == 0 {
    } else {
      BigEndianRoundTrip(n / 256, size - 1);
      var bytes := BigEndian(n, size);
      assert bytes[..size - 1] == BigEndian(n / 256, size - 1);
    }
  }

  lemma Pow256Of32()
    ensures Pow256(32) == TWO_256
  {
    assert Pow256(8) == TWO_64;
    assert Pow256(16) == 0x1_0000000000000000_0000000000000000;
    assert Pow256(24) == 0x1_0000000000000000_0000000000000000_0000000000000000;
  }

  /** One 32-byte word of `abi.encode`. */
  function Word(n: nat): Digest {
    BigEndian(n, 32)
  }

  lemma WordInjective(m: nat, n: nat)
    requires m < TWO_256 && n < TWO_256
    requires Word(m) == Word(n)
    ensures m == n
  {
    Pow256Of32();
    BigEndianRoundTrip(m, 32);
    BigEndianRoundTrip(n, 32);
  }

  // ---------------------------------------------------------------- UTF-8

  /** The UTF-8 bytes of one Unicode scalar value (RFC 3629, section 3). */
  function Utf8Char(c: char): (bytes: Bytes)
    ensures 1 <= |bytes| <= 4
  {
    var n := c as int;
    var q1 := n / 64;
    var q2 := q1 / 64;
    var q3 := q2 / 64;
    if n < 0x80 then [n]
    else if n < 0x800 then [0xC0 + q1, 0x80 + n % 64]
    else if n < 0x10000 then [0xE0 + q2, 0x80 + q1 % 64, 0x80 + n % 64]
    else [0xF0 + q3, 0x80 + q2 % 64, 0x80 + q1 % 64, 0x80 + n % 64]
  }

  /** `toHex(text)`: the text as UTF-8. */
  function Utf8(text: string): Bytes {
    if text == "" then [] else Utf8Char(text[0]) + Utf8(text[1..])
  }

  /** How many bytes the encoding that starts with `lead` takes. */
  function Utf8Length(lead: Byte): nat {
    if lead < 0x80 then 1 else if lead < 0xE0 then 2 else if lead < 0xF0 then 3 else 4
  }

  lemma Utf8LeadByte(c: char)
    ensures |Utf8Char(c)| == Utf8Length(Utf8Char(c)[0])
  {
  }

  /** Reads back the scalar value a UTF-8 sequence encodes. */
  function Utf8Value(b: seq<int>): int {
    if |b| == 1 then b[0]
    else if |b| == 2 then 64 * (b[0] - 0xC0) + (b[1] - 0x80)
    else if |b| == 3 then 64 * (64 * (b[0] - 0xE0) + (b[1] - 0x80)) + (b[2] - 0x80)
    else if |b| == 4 then 64 * (64 * (64 * (b[0] - 0xF0) + (b[1] - 0x80)) + (b[2] - 0x80)) + (b[3] - 0x80)
    else 0
  }

  lemma Utf8CharRoundTrip(c: char)
    ensures Utf8Value(Utf8Char(c)) == c as int
  {
    var n := c as int;
    assert n == 64 * (n / 64) + n % 64;
    assert n / 64 == 64 * (n / 64 / 64) + n / 64 % 64;
    assert n / 64 / 64 == 64 * (n / 64 / 64 / 64) + n / 64 / 64 % 64;
  }

  /** UTF-8 loses nothing: different texts have different bytes. */
  lemma {:induction false} Utf8Injective(s: string, t: string)
    requires Utf8(s) == Utf8(t)
    ensures s == t
  {
    if s != "" && t != "" {
      var a, b := Utf8Char(s[0]), Utf8Char(t[0]);
      var u := Utf8(s);
      assert u == a + Utf8(s[1..]) == b + Utf8(t[1..]);
      assert a[0] == u[0] == b[0];
      Utf8LeadByte(s[0]);
      Utf8LeadByte(t[0]);
      SplitConcat(a, Utf8(s[1..]), b, Utf8(t[1..]));
      Utf8CharRoundTrip(s[0]);
      Utf8CharRoundTrip(t[0]);
      Utf8Injective(s[1..], t[1..]);
      assert s == [s[0]] + s[1..];
      assert t == [t[0]] + t[1..];
    }
  }
}
