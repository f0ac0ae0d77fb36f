/** Byte strings: XOR and the fixed-width integer encodings the wire formats use. */
module Bytes {

  type bytes = seq<bv8>

  /** A hardware address. */
  type Address = s: bytes | |s| == 6 witness [0, 0, 0, 0, 0, 0]

  function Xor(a: bytes, b: bytes): (c: bytes)
    requires |a| == |b|
    ensures |c| == |a|
    ensures forall i :: 0 <= i < |a| ==> c[i] == a[i] ^ b[i]
  {
    seq(|a|, i requires 0 <= i < |a| => a[i] ^ b[i])
  }

  lemma XorCancels(a: bytes, b: bytes)
    requires |a| == |b|
    ensures Xor(Xor(a, b), b) == a
  {
    var c := Xor(Xor(a, b), b);
    assert forall i :: 0 <= i < |a| ==> c[i] == a[i];
  }

  function Zeros(n: nat): (z: bytes)
    ensures |z| == n
    ensures forall i :: 0 <= i < n ==> z[i] == 0
  {
    seq(n, _ => 0)
  }

  /** The low byte of a number, and the value of a byte. */
  function Byte(n: nat): bv8 {
    (n % 256) as bv8
  }

  function Val(b: bv8): nat {
    b as nat
  }

  lemma ByteVal(b: bv8)
    ensures Val(b) < 256
    ensures Byte(Val(b)) == b
  {
    assert (b as nat) as bv8 == b;
  }

  lemma NextByte(b: bv8)
    requires Val(b) < 255
    ensures Val(b + 1) == Val(b) + 1
  {
    assert b != 0xff;
    assert (b + 1) as nat == b as nat + 1;
  }

  /** Every number below 256 is the value of a byte. */
  lemma {:induction false} ByteWithVal(n: nat) returns (b: bv8)
    requires n < 256
    ensures Val(b) == n
  {
    if n == 0 {
      b := 0;
    } else {
      b := ByteWithVal(n - 1);
      NextByte(b);
      b := b + 1;
    }
  }

  lemma ValByte(n: nat)
    ensures Val(Byte(n)) == n % 256
  {
    hide Val, Byte;
    var b := ByteWithVal(n % 256);
    ByteVal(b);
    assert Byte(n) == Byte(n % 256) by { SameLowByte(n); }
  }

  lemma SameLowByte(n: nat)
    ensures Byte(n) == Byte(n % 256)
  {
    assert n % 256 % 256 == n % 256;
  }

  /** Big-endian encoding of the low `width` bytes of n. */
  function BigEndian(n: nat, width: nat): (b: bytes)
    ensures |b| == width
  {
    if width == 0 then [] else BigEndian(n / 256, width - 1) + [Byte(n)]
  }

  lemma BigEndian4(n: nat)
    ensures BigEndian(n, 4) == [Byte(n / 0x100_0000), Byte(n / 0x1_0000), Byte(n / 0x100), Byte(n)]
  {
    hide Byte;
    assert n / 256 / 256 == n / 0x1_0000 && n / 256 / 256 / 256 == n / 0x100_0000;
    assert BigEndian(n / 256 / 256 / 256, 1) == [Byte(n / 256 / 256 / 256)];
  }

  lemma BigEndian8(n: nat)
    ensures BigEndian(n, 8) == BigEndian(n / 0x1_0000_0000, 4) + BigEndian(n, 4)
  {
    hide Byte;
    var m := n / 0x100_0000;
    assert n / 256 / 256 / 256 == m && m / 256 == n / 0x1_0000_0000;
    BigEndian4(n);
    assert BigEndian(m, 5) == BigEndian(n / 0x1_0000_0000, 4) + [Byte(m)];
    assert BigEndian(n / 256 / 256, 6) == BigEndian(m, 5) + [Byte(n / 256 / 256)];
    assert BigEndian(n / 256, 7) == BigEndian(n / 256 / 256, 6) + [Byte(n / 256)];
    assert n / 256 / 256 == n / 0x1_0000;
  }

  lemma SameByte(m: nat, n: nat)
    requires m % 256 == n % 256
    ensures Byte(m) == Byte(n)
  {
  }

  /** A 16-bit number, high byte first. */
  function Number(hi: bv8, lo: bv8): nat {
    256 * Val(hi) + Val(lo)
  }

  lemma NumberBound(hi: bv8, lo: bv8)
    ensures Number(hi, lo) < 0x1_0000
  {
    hide Val;
    ByteVal(hi);
    ByteVal(lo);
  }

  lemma NumberBytes(n: nat)
    requires n < 0x1_0000
    ensures Number(Byte(n / 256), Byte(n)) == n
  {
    hide Val, Byte;
    ValByte(n);
    ValByte(n / 256);
  }
}
