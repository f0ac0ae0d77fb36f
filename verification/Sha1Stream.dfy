/** The streaming context: whatever way a message is cut up, the digest is that of the whole message. */
module Sha1Stream {
  import opened Bytes
  import opened Sha1Spec
  import Sha1

  const TWO32: nat := 0x1_0000_0000

  /** The bit length of n bytes kept in two 32-bit words, after `wraps` wraps of the pair. */
  ghost predicate Counts(n: nat, count0: nat, count1: nat, wraps: nat) {
    count0 < TWO32 && count1 < TWO32 && 8 * n == wraps * (TWO32 * TWO32) + count1 * TWO32 + count0
  }

  /** The carry test of the update: adding the low part wrapped if and only if the sum got smaller. */
  lemma CountsUpdate(n: nat, count0: nat, count1: nat, wraps: nat, len: nat, new0: nat, new1: nat)
    requires Counts(n, count0, count1, wraps) && len < TWO32
    requires new0 == (count0 + 8 * len % TWO32) % TWO32
    requires new1 == (count1 + (if new0 < count0 then 1 else 0) + len / 0x2000_0000) % TWO32
    ensures Counts(n + len, new0, new1, wraps + (count1 + (if new0 < count0 then 1 else 0) + len / 0x2000_0000) / TWO32)
  {
    var low := 8 * len % TWO32;
    assert 8 * len == len / 0x2000_0000 * TWO32 + low;
    var carry := if new0 < count0 then 1 else 0;
    assert count0 + low == carry * TWO32 + new0;
    var high := count1 + carry + len / 0x2000_0000;
    assert high == high / TWO32 * TWO32 + new1;
  }

  /** The byte position in the buffer is read off the bit count. */
  lemma Position(n: nat, count0: nat, count1: nat, wraps: nat)
    requires Counts(n, count0, count1, wraps)
    ensures count0 % 8 == 0 && count0 / 8 % 64 == n % 64
  {
    var blocks := (wraps * TWO32 + count1) * 0x80_0000;
    assert 8 * n == 512 * blocks + count0;
    InBlock(n, blocks, count0);
  }

  lemma InBlock(n: nat, blocks: nat, low: nat)
    requires 8 * n == 512 * blocks + low
    ensures low % 8 == 0 && low / 8 % 64 == n % 64
  {
    assert low == 8 * (n - 64 * blocks);
    assert (n - 64 * blocks) % 64 == n % 64;
  }

  // A message split into whole chunks and the bytes still in the buffer.

  function Whole(m: bytes): (w: bytes)
    ensures |w| % 64 == 0
  {
    m[..|m| - |m| % 64]
  }

  function Rest(m: bytes): bytes {
    m[|m| - |m| % 64..]
  }

  lemma SplitAt(m: bytes, p: nat)
    requires p <= |m| < p + 64 && p % 64 == 0
    ensures Whole(m) == m[..p] && Rest(m) == m[p..]
  {
  }

  class Context {
    var state: Registers
    var count0: nat
    var count1: nat
    const buffer: array<bv8>
    ghost var fed: bytes
    ghost var wraps: nat

    ghost predicate Valid()
      reads this, buffer
    {
      && buffer.Length == 64
      && Counts(|fed|, count0, count1, wraps)
      && state == Hash(INITIAL, Whole(fed))
      && buffer[..|fed| % 64] == Rest(fed)
    }

    constructor ()
      ensures Valid() && fed == [] && fresh(buffer)
    {
      state := INITIAL;
      count0, count1, wraps, fed := 0, 0, 0, [];
      buffer := new bv8[64](_ => 0);
    }

    /** Overwrites the buffer from position j. */
    method Store(j: nat, data: bytes)
      requires j + |data| <= buffer.Length
      modifies buffer
      ensures buffer[..j] == old(buffer[..j]) && buffer[j..j + |data|] == data
    {
      for k := 0 to |data|
        invariant buffer[..j] == old(buffer[..j]) && buffer[j..j + k] == data[..k]
      {
        buffer[j + k] := data[k];
      }
    }

    /** Adds len bytes to the bit count. */
    method Count(len: nat)
      requires Counts(|fed|, count0, count1, wraps) && len < TWO32
      modifies this`count0, this`count1, this`wraps
      ensures Counts(|fed| + len, count0, count1, wraps)
    {
      var new0 := (count0 + 8 * len % TWO32) % TWO32;
      var carry := if new0 < count0 then 1 else 0;
      CountsUpdate(|fed|, count0, count1, wraps, len, new0, (count1 + carry + len / 0x2000_0000) % TWO32);
      wraps := wraps + (count1 + carry + len / 0x2000_0000) / TWO32;
      count1 := (count1 + carry + len / 0x2000_0000) % TWO32;
      count0 := new0;
    }

    /** Compresses every chunk that is complete; the result is the number of bytes of data consumed. */
    method Absorb(data: bytes, j: nat) returns (i: nat)
      requires Valid() && j == |fed| % 64 && j + |data| >= 64 && |data| + 63 < TWO32
      modifies this`state, buffer
      ensures i <= |data| < i + 64 && (|fed| + i) % 64 == 0
      ensures state == Hash(INITIAL, (fed + data)[..|fed| + i])
    {
      hide Counts, Hash, Whole, Rest;
      i := 64 - j;
      Store(j, data[..i]);
      FirstChunk(fed, data, buffer[..]);
      state := Sha1.Transform(state, buffer[..]);
      while i + 63 < |data|
        invariant i <= |data| && (|fed| + i) % 64 == 0
        invariant state == Hash(INITIAL, (fed + data)[..|fed| + i])
        modifies this`state
      {
        NextChunk(fed, data, i);
        state := Sha1.Transform(state, data[i..i + 64]);
        i := i + 64;
      }
    }

    /** Feeds bytes. The 32-bit sums of position and length must not wrap. */
    method Update(data: bytes)
      requires Valid() && |data| + 63 < TWO32
      modifies this, buffer
      ensures Valid() && fed == old(fed) + data
    {
      hide Counts, Hash, Whole, Rest;
      Position(|fed|, count0, count1, wraps);
      var j := count0 / 8 % 64;
      if j + |data| > 63 {
        var i := Absorb(data, j);
        Store(0, data[i..]);
        LastChunk(fed, data, i);
      } else {
        Store(j, data);
        NoChunk(fed, data);
        assert buffer[..j + |data|] == buffer[..j] + buffer[j..j + |data|];
      }
      Count(|data|);
      fed := fed + data;
    }

    /** Pads and finishes: the digest of everything that was fed. */
    method Final() returns (digest: bytes)
      requires Valid()
      modifies this, buffer
      ensures digest == Sha1Digest(old(fed))
    {
      hide Counts, Hash, Whole, Rest, PadZeros, BigEndian, Sha1Digest, LeavesRoom, Byte;
      ghost var m := fed;
      var finalCount := [Byte(count1 / 0x100_0000), Byte(count1 / 0x1_0000), Byte(count1 / 0x100), Byte(count1),
                         Byte(count0 / 0x100_0000), Byte(count0 / 0x1_0000), Byte(count0 / 0x100), Byte(count0)];
      LengthBytes(|m|, count0, count1, wraps);
      Update([0x80]);
      PadZerosSmallest(|m|);
      ghost var k := 0;
      assert fed == m + [0x80] + Zeros(0);
      Position(|fed|, count0, count1, wraps);
      while count0 / 8 % 64 != 56
        invariant Valid() && k <= PadZeros(|m|) && fed == m + [0x80] + Zeros(k)
        decreases PadZeros(|m|) - k
      {
        RoomLeft(|m|, k);
        Position(|fed|, count0, count1, wraps);
        Update([0]);
        k := k + 1;
        assert Zeros(k) == Zeros(k - 1) + [0];
      }
      Position(|fed|, count0, count1, wraps);
      RoomLeft(|m|, k);
      Update(finalCount);
      assert fed == Pad(m);
      PadIsWhole(m);
      digest := Digest(state);
      assert digest == Sha1Digest(m) by { DigestOfPad(m); }
    }
  }

  lemma RoomLeft(n: nat, k: nat)
    requires k <= PadZeros(n)
    ensures LeavesRoom(n, k) <==> k == PadZeros(n)
    ensures LeavesRoom(n, k) <==> (n + 1 + k) % 64 == 56
  {
    PadZerosSmallest(n);
  }

  lemma PadIsWhole(m: bytes)
    ensures Whole(Pad(m)) == Pad(m)
  {
    hide Pad;
  }

  lemma DigestOfPad(m: bytes)
    ensures Sha1Digest(m) == Digest(Hash(INITIAL, Pad(m)))
  {
    hide Pad, Hash, Digest;
  }

  lemma LengthBytes(n: nat, count0: nat, count1: nat, wraps: nat)
    requires Counts(n, count0, count1, wraps)
    ensures BigEndian(8 * n, 8)
         == [Byte(count1 / 0x100_0000), Byte(count1 / 0x1_0000), Byte(count1 / 0x100), Byte(count1),
             Byte(count0 / 0x100_0000), Byte(count0 / 0x1_0000), Byte(count0 / 0x100), Byte(count0)]
  {
    hide Byte, BigEndian;
    var high := 8 * n / TWO32;
    assert high == wraps * TWO32 + count1;
    BigEndian8(8 * n);
    BigEndian4(high);
    BigEndian4(8 * n);
    LowWord(high, wraps, count1);
    LowWord(8 * n, wraps * TWO32 + count1, count0);
  }

  lemma LowWord(n: nat, high: nat, low: nat)
    requires n == high * TWO32 + low && low < TWO32
    ensures Byte(n) == Byte(low) && Byte(n / 0x100) == Byte(low / 0x100)
    ensures Byte(n / 0x1_0000) == Byte(low / 0x1_0000) && Byte(n / 0x100_0000) == Byte(low / 0x100_0000)
  {
    hide Byte;
    LowDigits(n, high, low, 0x1, 0x1_0000_0000);
    LowDigits(n, high, low, 0x100, 0x100_0000);
    LowDigits(n, high, low, 0x1_0000, 0x1_0000);
    LowDigits(n, high, low, 0x100_0000, 0x100);
  }

  lemma LowDigits(n: nat, high: nat, low: nat, d: nat, e: nat)
    requires n == high * TWO32 + low && (d, e) in {(0x1, 0x1_0000_0000), (0x100, 0x100_0000), (0x1_0000, 0x1_0000), (0x100_0000, 0x100)}
    ensures Byte(n / d) == Byte(low / d)
  {
    hide Byte;
    assert n / d == high * e + low / d;
    SameByte(n / d, low / d);
  }

  /** Data that does not fill the buffer. */
  lemma NoChunk(fed: bytes, data: bytes)
    requires |fed| % 64 + |data| < 64
    ensures var all := fed + data; Whole(all) == Whole(fed) && Rest(all) == Rest(fed) + data && |all| % 64 == |fed| % 64 + |data|
  {
    var all := fed + data;
    var p := |fed| - |fed| % 64;
    SplitAt(all, p);
    assert all[..p] == fed[..p] && all[p..] == fed[p..] + data;
  }

  /** The chunk made of the buffered bytes and the first bytes of the data. */
  lemma FirstChunk(fed: bytes, data: bytes, buffer: Chunk)
    requires |fed| % 64 + |data| >= 64
    requires buffer[..|fed| % 64] == Rest(fed) && buffer[|fed| % 64..] == data[..64 - |fed| % 64]
    ensures (|fed| + 64 - |fed| % 64) % 64 == 0
    ensures Hash(INITIAL, (fed + data)[..|fed| + 64 - |fed| % 64]) == Compress(Hash(INITIAL, Whole(fed)), buffer)
  {
    hide Compress, Hash;
    var r := |fed| % 64;
    assert buffer == buffer[..r] + buffer[r..];
    assert (fed + data)[..|fed| + 64 - r] == Whole(fed) + buffer;
    HashChunk(INITIAL, Whole(fed), buffer);
  }

  lemma NextChunk(fed: bytes, data: bytes, i: nat)
    requires (|fed| + i) % 64 == 0 && i + 64 <= |data|
    ensures (|fed| + i + 64) % 64 == 0
    ensures Hash(INITIAL, (fed + data)[..|fed| + i + 64]) == Compress(Hash(INITIAL, (fed + data)[..|fed| + i]), data[i..i + 64])
  {
    hide Compress, Hash;
    var all := fed + data;
    assert all[..|fed| + i + 64] == all[..|fed| + i] + data[i..i + 64];
    HashChunk(INITIAL, all[..|fed| + i], data[i..i + 64]);
  }

  lemma LastChunk(fed: bytes, data: bytes, i: nat)
    requires (|fed| + i) % 64 == 0 && i <= |data| < i + 64
    ensures var all := fed + data; Whole(all) == all[..|fed| + i] && Rest(all) == data[i..] && |all| % 64 == |data| - i
  {
    var all := fed + data;
    SplitAt(all, |fed| + i);
    assert all[|fed| + i..] == data[i..];
  }

  function Joined(pieces: seq<bytes>): bytes {
    if |pieces| == 0 then [] else Joined(pieces[..|pieces| - 1]) + pieces[|pieces| - 1]
  }

  /** However a message is cut into updates, the digest is that of the whole message. */
  method DigestOfPieces(pieces: seq<bytes>) returns (digest: bytes)
    requires forall p :: p in pieces ==> |p| + 63 < TWO32
    ensures digest == Sha1Digest(Joined(pieces))
  {
    var context := new Context();
    for i := 0 to |pieces|
      invariant context.Valid() && fresh(context) && fresh(context.buffer)
      invariant context.fed == Joined(pieces[..i])
    {
      assert pieces[..i + 1][..i] == pieces[..i];
      context.Update(pieces[i]);
    }
    assert pieces[..|pieces|] == pieces;
    digest := context.Final();
  }
}
