/** SHA-1 as FIPS 180-4 defines it: 80-word message schedule, padding, block by block. */
module Sha1Spec {
  import opened Bytes

  type Word = bv32
  type Words = s: seq<Word> | |s| == 16 witness seq(16, _ => 0)
  type Chunk = s: bytes | |s| == 64 witness Zeros(64)

  datatype Registers = Registers(a: Word, b: Word, c: Word, d: Word, e: Word)

  const INITIAL := Registers(0x67452301, 0xEFCDAB89, 0x98BADCFE, 0x10325476, 0xC3D2E1F0)

  // Section 4.1.1 and section 4.2.1.

  function Rotl1(x: Word): Word { (x << 1) | (x >> 31) }
  function Rotl5(x: Word): Word { (x << 5) | (x >> 27) }
  function Rotl30(x: Word): Word { (x << 30) | (x >> 2) }

  function Ch(x: Word, y: Word, z: Word): Word { (x & y) ^ (!x & z) }
  function Parity(x: Word, y: Word, z: Word): Word { x ^ y ^ z }
  function Maj(x: Word, y: Word, z: Word): Word { (x & y) ^ (x & z) ^ (y & z) }

  function F(t: nat, x: Word, y: Word, z: Word): Word {
    if t < 20 then Ch(x, y, z) else if t < 40 then Parity(x, y, z) else if t < 60 then Maj(x, y, z) else Parity(x, y, z)
  }

  function K(t: nat): Word {
    if t < 20 then 0x5A827999 else if t < 40 then 0x6ED9EBA1 else if t < 60 then 0x8F1BBCDC else 0xCA62C1D6
  }

  /** The big-endian word of four bytes, and back. */
  function WordOf(b0: bv8, b1: bv8, b2: bv8, b3: bv8): Word {
    (b0 as Word << 24) | (b1 as Word << 16) | (b2 as Word << 8) | b3 as Word
  }

  function BytesOf(w: Word): (b: bytes)
    ensures |b| == 4
  {
    [((w >> 24) & 0xff) as bv8, ((w >> 16) & 0xff) as bv8, ((w >> 8) & 0xff) as bv8, (w & 0xff) as bv8]
  }

  function WordsOf(chunk: Chunk): Words {
    seq(16, t requires 0 <= t < 16 => WordOf(chunk[4 * t], chunk[4 * t + 1], chunk[4 * t + 2], chunk[4 * t + 3]))
  }

  // Section 6.1.2.

  function W(m: Words, t: nat): Word {
    if t < 16 then m[t] else Rotl1(W(m, t - 3) ^ W(m, t - 8) ^ W(m, t - 14) ^ W(m, t - 16))
  }

  function Sum5(a: Word, f: Word, e: Word, k: Word, w: Word): Word {
    a + f + e + k + w
  }

  function Next(r: Registers, t: nat, w: Word): Registers {
    Registers(Sum5(Rotl5(r.a), F(t, r.b, r.c, r.d), r.e, K(t), w), r.a, Rotl30(r.b), r.c, r.d)
  }

  function Rounds(h: Registers, m: Words, t: nat): Registers
    decreases t, |m|
  {
    if t == 0 then h else Next(Rounds(h, m, t - 1), t - 1, W(m, t - 1))
  }

  function Sum(h: Registers, r: Registers): Registers {
    Registers(h.a + r.a, h.b + r.b, h.c + r.c, h.d + r.d, h.e + r.e)
  }

  function Compress(h: Registers, chunk: Chunk): Registers {
    Sum(h, Rounds(h, WordsOf(chunk), 80))
  }

  function Hash(h: Registers, b: bytes): Registers
    requires |b| % 64 == 0
    decreases |b|
  {
    if |b| == 0 then h else Hash(Compress(h, b[..64]), b[64..])
  }

  // Section 5.1.1: a one bit, zeros, and the bit length in 64 bits.

  function PadZeros(n: nat): nat {
    if n % 64 < 56 then 55 - n % 64 else 119 - n % 64
  }

  /** A message of n bytes with its one bit and k zero bytes leaves room for the length. */
  predicate LeavesRoom(n: nat, k: nat) {
    (n + 1 + k) % 64 == 56
  }

  lemma PadZerosSmallest(n: nat)
    ensures LeavesRoom(n, PadZeros(n))
    ensures forall k: nat :: LeavesRoom(n, k) ==> PadZeros(n) <= k
  {
  }

  lemma PadLength(n: nat)
    ensures (n + 1 + PadZeros(n) + 8) % 64 == 0
  {
  }

  function Pad(m: bytes): (p: bytes)
    ensures |p| % 64 == 0
  {
    hide PadZeros, BigEndian;
    PadLength(|m|);
    m + [0x80] + Zeros(PadZeros(|m|)) + BigEndian(8 * |m|, 8)
  }

  function Digest(r: Registers): (d: bytes)
    ensures |d| == 20
  {
    BytesOf(r.a) + BytesOf(r.b) + BytesOf(r.c) + BytesOf(r.d) + BytesOf(r.e)
  }

  function Sha1Digest(m: bytes): (d: bytes)
    ensures |d| == 20
  {
    Digest(Hash(INITIAL, Pad(m)))
  }

  lemma {:induction false} HashConcat(h: Registers, a: bytes, b: bytes)
    requires |a| % 64 == 0 && |b| % 64 == 0
    ensures (|a| + |b|) % 64 == 0
    ensures Hash(h, a + b) == Hash(Hash(h, a), b)
    decreases |a|
  {
    hide Compress;
    SumOfChunks(|a|, |b|);
    if |a| == 0 {
      assert a + b == b;
    } else {
      var h1 := Compress(h, a[..64]);
      HashConcat(h1, a[64..], b);
      assert (a + b)[..64] == a[..64] && (a + b)[64..] == a[64..] + b;
    }
  }

  lemma SumOfChunks(m: nat, n: nat)
    requires m % 64 == 0 && n % 64 == 0
    ensures (m + n) % 64 == 0
  {
  }

  lemma HashChunk(h: Registers, a: bytes, chunk: Chunk)
    requires |a| % 64 == 0
    ensures (|a| + 64) % 64 == 0
    ensures Hash(h, a + chunk) == Compress(Hash(h, a), chunk)
  {
    hide Compress;
    HashConcat(h, a, chunk);
    assert chunk[..64] == chunk && chunk[64..] == [];
    assert Hash(Compress(Hash(h, a), chunk), []) == Compress(Hash(h, a), chunk);
  }
}
