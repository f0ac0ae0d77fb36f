/** HMAC, PBKDF2 and the pairwise key PRF: their definitions, and the driver's in-place forms. */
module KeyDerivation {
  import opened Bytes
  import opened Sha1Spec
  import opened Sha1Stream

  type Mac = s: bytes | |s| == 20 witness Zeros(20)

  // HMAC, section 2 of RFC 2104.

  function BlockKey(key: bytes): (k: Chunk) {
    var short := if |key| > 64 then Sha1Digest(key) else key;
    short + Zeros(64 - |short|)
  }

  function Pad64(k: Chunk, pad: bv8): Chunk {
    seq(64, i requires 0 <= i < 64 => k[i] ^ pad)
  }

  function Hmac(key: bytes, m: bytes): Mac {
    hide Sha1Digest;
    var k := BlockKey(key);
    Sha1Digest(Pad64(k, 0x5c) + Sha1Digest(Pad64(k, 0x36) + m))
  }

  // PBKDF2 with HMAC-SHA-1, section 5.2 of RFC 8018.

  function U(p: bytes, s: bytes, block: nat, c: nat): Mac
    requires c >= 1
  {
    hide Hmac;
    if c == 1 then Hmac(p, s + BigEndian(block, 4)) else Hmac(p, U(p, s, block, c - 1))
  }

  function T(p: bytes, s: bytes, block: nat, c: nat): Mac
    requires c >= 1
  {
    hide U;
    if c == 1 then U(p, s, block, 1) else Xor(T(p, s, block, c - 1), U(p, s, block, c))
  }

  /** The first 32 bytes of the derived key T_1 || T_2. */
  function Pbkdf2(p: bytes, s: bytes, c: nat): (k: bytes)
    requires c >= 1
    ensures |k| == 32
  {
    hide T;
    (T(p, s, 1, c) + T(p, s, 2, c))[..32]
  }

  /** Block 1, and the first twelve bytes of block 2. */
  lemma Pbkdf2Is(p: bytes, s: bytes, c: nat)
    requires c >= 1
    ensures Pbkdf2(p, s, c)[..20] == T(p, s, 1, c) && Pbkdf2(p, s, c)[20..] == T(p, s, 2, c)[..12]
  {
    hide T;
  }

  method CopyBytes(src: bytes, dst: array<bv8>, offset: nat)
    requires offset + |src| <= dst.Length
    modifies dst
    ensures dst[..offset] == old(dst[..offset])
    ensures dst[offset..offset + |src|] == src
    ensures dst[offset + |src|..] == old(dst[offset + |src|..])
  {
    for k := 0 to |src|
      invariant dst[..offset] == old(dst[..offset]) && dst[offset..offset + k] == src[..k]
      invariant dst[offset + k..] == old(dst[offset + k..])
    {
      dst[offset + k] := src[k];
    }
  }

  method DigestOfPair(first: bytes, second: bytes) returns (digest: Mac)
    requires |first| + 63 < TWO32 && |second| + 63 < TWO32
    ensures digest == Sha1Digest(first + second)
  {
    hide Sha1Digest;
    var context := new Context();
    context.Update(first);
    assert context.fed == first;
    context.Update(second);
    digest := context.Final();
  }

  method ShortKey(key: bytes) returns (k: Chunk)
    requires |key| + 63 < TWO32
    ensures k == BlockKey(key)
  {
    hide Sha1Digest;
    var short := key;
    if |key| > 64 {
      short := DigestOfPair(key, []);
      assert key + [] == key;
    }
    k := short + Zeros(64 - |short|);
  }

  /** HMAC into mac. The data may be the mac array itself: it is read before mac is written. */
  method HmacSha1(key: bytes, data: array<bv8>, len: nat, mac: array<bv8>)
    requires |key| + 63 < TWO32 && len <= data.Length && len + 63 < TWO32 && mac.Length == 20
    modifies mac
    ensures mac[..] == Hmac(key, old(data[..len]))
  {
    hide Sha1Digest, BlockKey, Pad64;
    var k := ShortKey(key);
    var digest := DigestOfPair(Pad64(k, 0x36), data[..len]);
    CopyBytes(digest, mac, 0);
    assert mac[..20] == digest;
    digest := DigestOfPair(Pad64(k, 0x5c), mac[..20]);
    CopyBytes(digest, mac, 0);
    assert mac[..] == digest;
  }

  method XorInto(t: array<bv8>, u: array<bv8>)
    requires t.Length == 20 && u.Length == 20 && t != u
    modifies t
    ensures t[..] == Xor(old(t[..]), u[..])
  {
    ghost var want := Xor(t[..], u[..]);
    for i := 0 to 20
      invariant forall k :: 0 <= k < i ==> t[k] == want[k]
      invariant forall k :: i <= k < 20 ==> t[k] == old(t[k])
    {
      t[i] := t[i] ^ u[i];
    }
    assert t[..] == want;
  }

  /** One block T_i of the key: the chain of HMACs runs in place in u, its sum in t. */
  method DeriveBlock(p: bytes, salt: array<bv8>, len: nat, ghost s: bytes, ghost block: nat) returns (result: Mac)
    requires |p| + 63 < TWO32 && len <= salt.Length && len + 63 < TWO32
    requires salt[..len] == s + BigEndian(block, 4)
    ensures result == T(p, s, block, 4096)
  {
    hide Hmac, BigEndian, Xor;
    var u := new bv8[20];
    HmacSha1(p, salt, len, u);
    var t := new bv8[20];
    CopyBytes(u[..], t, 0);
    assert t[..] == u[..];
    var iter := 1;
    assert u[..] == U(p, s, block, 1) && t[..] == T(p, s, block, 1);
    while iter < 4096
      invariant 1 <= iter <= 4096
      invariant u[..] == U(p, s, block, iter) && t[..] == T(p, s, block, iter)
    {
      assert u[..20] == u[..];
      HmacSha1(p, u, 20, u);
      XorInto(t, u);
      iter := iter + 1;
    }
    result := t[..];
  }

  /** The bytes of a C string, up to its first zero byte. */
  function CString(b: bytes): bytes {
    if |b| == 0 || b[0] == 0 then [] else [b[0]] + CString(b[1..])
  }

  lemma {:induction false} CStringIs(b: bytes, n: nat)
    requires n < |b| && b[n] == 0 && 0 !in b[..n]
    ensures CString(b) == b[..n]
  {
    if n > 0 {
      CStringIs(b[1..], n - 1);
      assert b[..n] == [b[0]] + b[1..][..n - 1];
    }
  }

  method StringLength(b: bytes) returns (n: nat)
    requires 0 in b
    ensures n < |b| && CString(b) == b[..n]
  {
    n := 0;
    while b[n] != 0
      invariant n < |b| && 0 !in b[..n] && 0 in b[n..]
      decreases |b| - n
    {
      n := n + 1;
    }
    CStringIs(b, n);
  }

  /** The pairwise master key of a passphrase and network name; names over 120 bytes are cut there. */
  method DerivePmk(passphrase: bytes, ssid: bytes) returns (pmk: bytes)
    requires 0 in passphrase && |passphrase| + 63 < TWO32
    ensures pmk == Pbkdf2(CString(passphrase), if |ssid| > 120 then ssid[..120] else ssid, 4096)
  {
    hide Hmac, T, CString, BigEndian;
    var n := StringLength(passphrase);
    var s := if |ssid| > 120 then ssid[..120] else ssid;
    var salt := new bv8[128];
    CopyBytes(s, salt, 0);
    var t1 := DeriveNumbered(passphrase[..n], salt, |s|, s, 1);
    var t2 := DeriveNumbered(passphrase[..n], salt, |s|, s, 2);
    var first: bytes, second: bytes := t1, t2;
    pmk := first + second[..12];
    assert pmk == (first + second)[..32];
  }

  /** Appends the block number to the salt and derives that block. */
  method DeriveNumbered(p: bytes, salt: array<bv8>, len: nat, ghost s: bytes, block: nat) returns (t: Mac)
    requires |p| + 63 < TWO32 && salt.Length == 128 && len <= 120 && salt[..len] == s && block <= 2
    modifies salt
    ensures salt[..len] == s
    ensures t == T(p, s, block, 4096)
  {
    hide T, Byte;
    BigEndian4(block);
    salt[len] := Byte(block / 0x100_0000);
    salt[len + 1] := Byte(block / 0x1_0000);
    salt[len + 2] := Byte(block / 0x100);
    salt[len + 3] := Byte(block);
    hide BigEndian;
    assert salt[..len + 4] == s + BigEndian(block, 4);
    t := DeriveBlock(p, salt, len + 4, s, block);
  }

  // The pairwise key hierarchy, section 12.7.1.3 of IEEE Std 802.11-2016.

  /** The text "Pairwise key expansion". */
  const LABEL: bytes := [0x50, 0x61, 0x69, 0x72, 0x77, 0x69, 0x73, 0x65, 0x20, 0x6b, 0x65, 0x79,
                         0x20, 0x65, 0x78, 0x70, 0x61, 0x6e, 0x73, 0x69, 0x6f, 0x6e]

  /** The PRF: HMACs of label, zero, data and a counter byte, one after the other. */
  function Prf(key: bytes, data: bytes, rounds: nat): (r: bytes)
    ensures |r| == 20 * rounds
    decreases rounds, |key|
  {
    hide Hmac;
    if rounds == 0 then []
    else Prf(key, data, rounds - 1) + Hmac(key, LABEL + [0] + data + [Byte(rounds - 1)])
  }

  /** The byte order of memcmp. */
  predicate Less(a: bytes, b: bytes)
    requires |a| == |b|
  {
    |a| > 0 && (a[0] < b[0] || (a[0] == b[0] && Less(a[1..], b[1..])))
  }

  function Min(a: bytes, b: bytes): bytes
    requires |a| == |b|
  {
    if Less(a, b) then a else b
  }

  function Max(a: bytes, b: bytes): bytes
    requires |a| == |b|
  {
    if Less(a, b) then b else a
  }

  lemma {:induction false} LessTotal(a: bytes, b: bytes)
    requires |a| == |b|
    ensures a != b ==> (Less(a, b) <==> !Less(b, a))
    ensures a == b ==> !Less(a, b)
  {
    if |a| > 0 {
      LessTotal(a[1..], b[1..]);
      assert a == [a[0]] + a[1..] && b == [b[0]] + b[1..];
    }
  }

  /** At the first byte where they differ, a has the lower one. */
  ghost predicate Lower(a: bytes, b: bytes)
    requires |a| == |b|
  {
    exists k :: 0 <= k < |a| && LowerAt(a, b, k)
  }

  predicate LowerAt(a: bytes, b: bytes, k: nat)
    requires |a| == |b| && k < |a|
  {
    a[..k] == b[..k] && a[k] < b[k]
  }

  lemma SameFirst(a: bytes, b: bytes, k: nat)
    requires |a| == |b| && k < |a| && LowerAt(a, b, k)
    ensures k > 0 ==> a[0] == b[0]
  {
    assert k > 0 ==> a[..k][0] == a[0] && b[..k][0] == b[0];
  }

  lemma {:induction false} LessIsLower(a: bytes, b: bytes)
    requires |a| == |b|
    ensures Less(a, b) <==> Lower(a, b)
  {
    if |a| > 0 && a[0] == b[0] {
      LessIsLower(a[1..], b[1..]);
      if Lower(a[1..], b[1..]) {
        var k :| 0 <= k < |a| - 1 && LowerAt(a[1..], b[1..], k);
        assert a[..k + 1] == [a[0]] + a[1..][..k] && b[..k + 1] == [b[0]] + b[1..][..k];
        assert LowerAt(a, b, k + 1);
      }
      if Lower(a, b) {
        var k :| 0 <= k < |a| && LowerAt(a, b, k);
        assert a[1..][..k - 1] == a[..k][1..] && b[1..][..k - 1] == b[..k][1..];
        assert LowerAt(a[1..], b[1..], k - 1);
      }
    } else if |a| > 0 {
      if Less(a, b) {
        assert LowerAt(a, b, 0);
      }
      if Lower(a, b) {
        var k :| 0 <= k < |a| && LowerAt(a, b, k);
        SameFirst(a, b, k);
      }
    }
  }

  lemma MinMaxSymmetric(a: bytes, b: bytes)
    requires |a| == |b|
    ensures Min(a, b) == Min(b, a) && Max(a, b) == Max(b, a)
  {
    LessTotal(a, b);
  }

  type Nonce = s: bytes | |s| == 32 witness Zeros(32)
  type Ptk = s: bytes | |s| == 64 witness Zeros(64)

  function PtkData(anonce: Nonce, snonce: Nonce, spa: Address, aa: Address): bytes {
    Min(spa, aa) + Max(spa, aa) + Min(snonce, anonce) + Max(snonce, anonce)
  }

  /** The data of the PRF: the lower address, the higher, the lower nonce, the higher. */
  lemma PtkDataSorted(anonce: Nonce, snonce: Nonce, spa: Address, aa: Address)
    ensures var d := PtkData(anonce, snonce, spa, aa);
      && |d| == 76
      && (d[..12] == spa + aa || d[..12] == aa + spa) && (d[12..] == snonce + anonce || d[12..] == anonce + snonce)
      && (Lower(spa, aa) ==> d[..12] == spa + aa) && (Lower(aa, spa) ==> d[..12] == aa + spa)
      && (Lower(snonce, anonce) ==> d[12..] == snonce + anonce) && (Lower(anonce, snonce) ==> d[12..] == anonce + snonce)
  {
    hide Less, Lower;
    Ordered(spa, aa);
    Ordered(snonce, anonce);
    var d := PtkData(anonce, snonce, spa, aa);
    assert d == (Min(spa, aa) + Max(spa, aa)) + (Min(snonce, anonce) + Max(snonce, anonce));
  }

  lemma Ordered(a: bytes, b: bytes)
    requires |a| == |b|
    ensures Min(a, b) + Max(a, b) == (if Less(a, b) then a + b else b + a)
    ensures (Lower(a, b) ==> Less(a, b)) && (Lower(b, a) ==> !Less(a, b))
  {
    LessIsLower(a, b);
    LessIsLower(b, a);
    LessTotal(a, b);
  }

  /** The pairwise transient key: KCK, KEK and temporal key. */
  function PtkOf(pmk: bytes, anonce: Nonce, snonce: Nonce, spa: Address, aa: Address): Ptk {
    hide Prf, PtkData;
    Prf(pmk, PtkData(anonce, snonce, spa, aa), 4)[..64]
  }

  /** Four HMACs over the label, a zero byte, the sorted data and the counters 0 to 3, and 64 bytes of them. */
  lemma PtkIs(pmk: bytes, anonce: Nonce, snonce: Nonce, spa: Address, aa: Address)
    ensures var start := LABEL + [0] + PtkData(anonce, snonce, spa, aa);
      PtkOf(pmk, anonce, snonce, spa, aa)
      == (Hmac(pmk, start + [0]) + Hmac(pmk, start + [1]) + Hmac(pmk, start + [2]) + Hmac(pmk, start + [3]))[..64]
  {
    hide Hmac, PtkData;
    var data := PtkData(anonce, snonce, spa, aa);
    PrfNothing(pmk, data);
    PrfNext(pmk, data, 0);
    PrfNext(pmk, data, 1);
    PrfNext(pmk, data, 2);
    PrfNext(pmk, data, 3);
    assert Byte(0) == 0 && Byte(1) == 1 && Byte(2) == 2 && Byte(3) == 3;
    assert [] + Hmac(pmk, LABEL + [0] + data + [0]) == Hmac(pmk, LABEL + [0] + data + [0]);
  }

  /** Both ends derive the same key: neither the order of the addresses nor that of the nonces matters. */
  lemma PtkSymmetric(pmk: bytes, n1: Nonce, n2: Nonce, a1: Address, a2: Address)
    ensures PtkOf(pmk, n1, n2, a1, a2) == PtkOf(pmk, n1, n2, a2, a1)
    ensures PtkOf(pmk, n1, n2, a1, a2) == PtkOf(pmk, n2, n1, a1, a2)
  {
    hide Prf, Min, Max;
    MinMaxSymmetric(a1, a2);
    MinMaxSymmetric(n1, n2);
  }

  method DerivePtk(pmk: bytes, anonce: Nonce, snonce: Nonce, spa: Address, aa: Address) returns (ptk: Ptk)
    requires |pmk| == 32
    ensures ptk == PtkOf(pmk, anonce, snonce, spa, aa)
  {
    hide Hmac, Prf, Less;
    var data := new bv8[100];
    var input := LABEL + [0] + PtkData(anonce, snonce, spa, aa);
    CopyBytes(input, data, 0);
    var hash := new bv8[20];
    var result: bytes := [];
    ghost var seed := PtkData(anonce, snonce, spa, aa);
    PrfNothing(pmk, seed);
    for i := 0 to 4
      invariant data[..99] == input
      invariant result == Prf(pmk, seed, i)
    {
      data[99] := Byte(i);
      assert data[..100] == input + [Byte(i)];
      HmacSha1(pmk, data, 100, hash);
      PrfNext(pmk, seed, i);
      result := result + hash[..];
    }
    ptk := result[..64];
  }

  lemma PrfNothing(key: bytes, data: bytes)
    ensures Prf(key, data, 0) == []
  {
  }

  lemma PrfNext(key: bytes, data: bytes, i: nat)
    ensures Prf(key, data, i + 1) == Prf(key, data, i) + Hmac(key, LABEL + [0] + data + [Byte(i)])
  {
    hide Hmac, Byte;
  }
}
