/** AES key wrap as section 2.2.1 of RFC 3394 defines it, and the driver's key unwrap. */
module KeyWrap {
  import opened Bytes
  import opened Options
  import opened AesSpec
  import Aes

  type Half = s: bytes | |s| == 8 witness Zeros(8)

  const IV: Half := [0xa6, 0xa6, 0xa6, 0xa6, 0xa6, 0xa6, 0xa6, 0xa6]

  /** The integrity register A and the n registers R. */
  datatype Registers = Registers(a: Half, r: seq<Half>)

  // Wrapping: row j runs its steps 1..i; then whole rows.

  function WrapStep(kek: Block, s: Registers, i: nat, t: nat): (s': Registers)
    requires i < |s.r|
    ensures |s'.r| == |s.r|
  {
    hide Cipher;
    var b: Block := Cipher(kek, s.a + s.r[i]);
    Registers(Xor(b[..8], BigEndian(t, 8)), s.r[i := b[8..]])
  }

  function WrapRow(kek: Block, s: Registers, j: nat, i: nat): (s': Registers)
    requires i <= |s.r|
    ensures |s'.r| == |s.r|
  {
    hide WrapStep;
    if i == 0 then s else WrapStep(kek, WrapRow(kek, s, j, i - 1), i - 1, |s.r| * j + i)
  }

  function WrapRows(kek: Block, s: Registers, j: nat): (s': Registers)
    ensures |s'.r| == |s.r|
    decreases j, |s.r|
  {
    if j == 0 then s else WrapRow(kek, WrapRows(kek, s, j - 1), j - 1, |s.r|)
  }

  // Unwrapping: the same steps undone, last one first.

  function UnwrapStep(kek: Block, s: Registers, i: nat, t: nat): (s': Registers)
    requires i < |s.r|
    ensures |s'.r| == |s.r|
  {
    hide InvCipher;
    var b: Block := InvCipher(kek, Xor(s.a, BigEndian(t, 8)) + s.r[i]);
    Registers(b[..8], s.r[i := b[8..]])
  }

  function UnwrapRow(kek: Block, s: Registers, j: nat, i: nat): (s': Registers)
    requires i <= |s.r|
    ensures |s'.r| == |s.r|
    decreases |s.r| - i
  {
    hide UnwrapStep;
    if i == |s.r| then s else UnwrapStep(kek, UnwrapRow(kek, s, j, i + 1), i, |s.r| * j + i + 1)
  }

  function UnwrapRows(kek: Block, s: Registers, j: nat): (s': Registers)
    requires j <= 6
    ensures |s'.r| == |s.r|
    decreases 6 - j, |s.r|
  {
    if j == 6 then s else UnwrapRow(kek, UnwrapRows(kek, s, j + 1), j, 0)
  }

  function Split(b: bytes): (r: seq<Half>)
    requires |b| % 8 == 0
    ensures |r| == |b| / 8
  {
    if |b| == 0 then [] else [b[..8]] + Split(b[8..])
  }

  function Flatten(r: seq<Half>): (b: bytes)
    ensures |b| == 8 * |r|
  {
    if |r| == 0 then [] else r[0] + Flatten(r[1..])
  }

  lemma AddBlock(n: nat)
    requires n % 8 == 0
    ensures (n + 8) % 8 == 0 && 8 + 8 * (n / 8) == n + 8
  {
  }

  /** The wrap of a key made of whole 64-bit blocks. */
  function Wrap(kek: Block, plain: bytes): (c: bytes)
    requires |plain| % 8 == 0
    ensures |c| == |plain| + 8 && |c| % 8 == 0
  {
    hide WrapRows, Split, Flatten;
    AddBlock(|plain|);
    var s := WrapRows(kek, Registers(IV, Split(plain)), 6);
    s.a + Flatten(s.r)
  }

  // The other form RFC 3394 gives: the registers shift, and the steps are counted through from 1 to 6n.

  function ShiftStep(kek: Block, s: Registers, t: nat): (s': Registers)
    requires |s.r| > 0
    ensures |s'.r| == |s.r|
  {
    hide Cipher;
    var b: Block := Cipher(kek, s.a + s.r[0]);
    Registers(Xor(b[..8], BigEndian(t, 8)), s.r[1..] + [b[8..]])
  }

  /** The state after n shifting steps, the first of them numbered past + 1. */
  function Shifts(kek: Block, s: Registers, past: nat, n: nat): (s': Registers)
    requires |s.r| > 0
    ensures |s'.r| == |s.r|
    decreases n, |s.r|
  {
    hide ShiftStep;
    if n == 0 then s else ShiftStep(kek, Shifts(kek, s, past, n - 1), past + n)
  }

  function Rotated(s: Registers, i: nat): Registers
    requires i <= |s.r|
  {
    Registers(s.a, s.r[i..] + s.r[..i])
  }

  lemma StepRotates(kek: Block, s: Registers, i: nat, t: nat)
    requires i < |s.r|
    ensures ShiftStep(kek, Rotated(s, i), t) == Rotated(WrapStep(kek, s, i, t), i + 1)
  {
    hide Cipher, BigEndian, Xor;
    var b: Block := Cipher(kek, s.a + s.r[i]);
    var r := s.r[i := b[8..]];
    assert (s.r[i..] + s.r[..i])[0] == s.r[i];
    assert (s.r[i..] + s.r[..i])[1..] + [b[8..]] == r[i + 1..] + r[..i + 1];
  }

  lemma {:induction false} RowRotates(kek: Block, s: Registers, j: nat, i: nat)
    requires i <= |s.r| && |s.r| > 0
    ensures Shifts(kek, s, |s.r| * j, i) == Rotated(WrapRow(kek, s, j, i), i)
  {
    hide ShiftStep, WrapStep;
    if i == 0 {
      assert s.r[0..] + s.r[..0] == s.r;
    } else {
      RowRotates(kek, s, j, i - 1);
      StepRotates(kek, WrapRow(kek, s, j, i - 1), i - 1, |s.r| * j + i);
    }
  }

  lemma {:induction false} ShiftsConcat(kek: Block, s: Registers, past: nat, m: nat, n: nat)
    requires |s.r| > 0
    ensures Shifts(kek, s, past, m + n) == Shifts(kek, Shifts(kek, s, past, m), past + m, n)
    decreases n
  {
    hide ShiftStep;
    if n > 0 {
      ShiftsConcat(kek, s, past, m, n - 1);
    }
  }

  lemma {:induction false} RowsRotate(kek: Block, s: Registers, j: nat)
    requires |s.r| > 0
    ensures Shifts(kek, s, 0, |s.r| * j) == WrapRows(kek, s, j)
    decreases j
  {
    hide ShiftStep, WrapRow;
    if j > 0 {
      var n, u := |s.r|, WrapRows(kek, s, j - 1);
      RowsRotate(kek, s, j - 1);
      NextRow(n, j);
      ShiftsConcat(kek, s, 0, n * (j - 1), n);
      RowRotates(kek, u, j - 1, n);
      var v := WrapRow(kek, u, j - 1, n);
      assert v.r[n..] + v.r[..n] == v.r;
    }
  }

  lemma NextRow(n: nat, j: nat)
    requires j > 0
    ensures n * j == n * (j - 1) + n
  {
  }

  /** Both forms of the wrap that RFC 3394 gives agree, for every key and every text of whole blocks. */
  lemma WrapByShifting(kek: Block, plain: bytes)
    requires |plain| % 8 == 0 && |plain| > 0
    ensures |Split(plain)| > 0
    ensures var s := Shifts(kek, Registers(IV, Split(plain)), 0, 6 * (|plain| / 8)); Wrap(kek, plain) == s.a + Flatten(s.r)
  {
    hide WrapRows, Shifts, Flatten, Split;
    RowsRotate(kek, Registers(IV, Split(plain)), 6);
    SixTimes(|plain| / 8);
  }

  lemma SixTimes(n: nat)
    ensures n * 6 == 6 * n
  {
  }

  lemma StepInverse(kek: Block, s: Registers, i: nat, t: nat)
    requires i < |s.r|
    ensures UnwrapStep(kek, WrapStep(kek, s, i, t), i, t) == s
    ensures WrapStep(kek, UnwrapStep(kek, s, i, t), i, t) == s
  {
    hide Cipher, InvCipher, Xor, BigEndian;
    var c := BigEndian(t, 8);
    var b: Block := s.a + s.r[i];
    CipherInverse(kek, b);
    var e: Block := Cipher(kek, b);
    XorCancels(e[..8], c);
    assert e[..8] + e[8..] == e && b[..8] == s.a && b[8..] == s.r[i];
    var w := WrapStep(kek, s, i, t);
    assert Xor(w.a, c) + w.r[i] == e;
    assert s.r[i := e[8..]][i := s.r[i]] == s.r;

    var x: Block := Xor(s.a, c) + s.r[i];
    CipherInverse(kek, x);
    var d: Block := InvCipher(kek, x);
    XorCancels(s.a, c);
    assert d[..8] + d[8..] == d && x[..8] == Xor(s.a, c) && x[8..] == s.r[i];
    assert s.r[i := d[8..]][i := s.r[i]] == s.r;
  }

  lemma {:induction false} UnwrapUndoesRow(kek: Block, s: Registers, j: nat, i: nat)
    requires i <= |s.r|
    ensures UnwrapRow(kek, WrapRow(kek, s, j, |s.r|), j, i) == WrapRow(kek, s, j, i)
    decreases |s.r| - i
  {
    hide UnwrapStep, WrapStep;
    if i < |s.r| {
      UnwrapUndoesRow(kek, s, j, i + 1);
      StepInverse(kek, WrapRow(kek, s, j, i), i, |s.r| * j + i + 1);
    }
  }

  lemma {:induction false} WrapUndoesRow(kek: Block, s: Registers, j: nat, i: nat)
    requires i <= |s.r|
    ensures WrapRow(kek, UnwrapRow(kek, s, j, 0), j, i) == UnwrapRow(kek, s, j, i)
  {
    hide UnwrapStep, WrapStep;
    if i > 0 {
      WrapUndoesRow(kek, s, j, i - 1);
      StepInverse(kek, UnwrapRow(kek, s, j, i), i - 1, |s.r| * j + i);
    }
  }

  lemma {:induction false} UnwrapUndoesRows(kek: Block, s: Registers, j: nat)
    requires j <= 6
    ensures UnwrapRows(kek, WrapRows(kek, s, 6), j) == WrapRows(kek, s, j)
    decreases 6 - j
  {
    hide UnwrapRow, WrapRow;
    if j < 6 {
      UnwrapUndoesRows(kek, s, j + 1);
      UnwrapUndoesRow(kek, WrapRows(kek, s, j), j, 0);
      assert WrapRow(kek, WrapRows(kek, s, j), j, 0) == WrapRows(kek, s, j) by { WrapNothing(kek, WrapRows(kek, s, j), j); }
    }
  }

  lemma WrapNothing(kek: Block, s: Registers, j: nat)
    ensures WrapRow(kek, s, j, 0) == s
    ensures UnwrapRow(kek, s, j, |s.r|) == s
  {
  }

  lemma {:induction false} WrapUndoesRows(kek: Block, s: Registers, j: nat)
    requires j <= 6
    ensures WrapRows(kek, UnwrapRows(kek, s, 0), j) == UnwrapRows(kek, s, j)
  {
    hide UnwrapRow, WrapRow;
    if j > 0 {
      WrapUndoesRows(kek, s, j - 1);
      var t := UnwrapRows(kek, s, j);
      WrapUndoesRow(kek, t, j - 1, |s.r|);
      WrapNothing(kek, t, j - 1);
    }
  }

  lemma {:induction false} SplitFlatten(r: seq<Half>)
    ensures Split(Flatten(r)) == r
  {
    if |r| > 0 {
      SplitFlatten(r[1..]);
      assert Flatten(r)[..8] == r[0] && Flatten(r)[8..] == Flatten(r[1..]);
    }
  }

  lemma {:induction false} FlattenSplit(b: bytes)
    requires |b| % 8 == 0
    ensures Flatten(Split(b)) == b
  {
    if |b| > 0 {
      FlattenSplit(b[8..]);
      assert b == b[..8] + b[8..];
    }
  }

  /** What the unwrap loop computes from a wrapped key. */
  function Unwrapped(kek: Block, cipher: bytes): Registers
    requires |cipher| % 8 == 0 && |cipher| >= 8
  {
    UnwrapRows(kek, Registers(cipher[..8], Split(cipher[8..])), 0)
  }

  lemma UnwrapOfWrap(kek: Block, plain: bytes)
    requires |plain| % 8 == 0
    ensures Unwrapped(kek, Wrap(kek, plain)) == Registers(IV, Split(plain))
  {
    hide WrapRows, UnwrapRows, Split, Flatten;
    var p := Registers(IV, Split(plain));
    var w := WrapRows(kek, p, 6);
    var cipher := Wrap(kek, plain);
    assert cipher[..8] == w.a && cipher[8..] == Flatten(w.r);
    SplitFlatten(w.r);
    UnwrapUndoesRows(kek, p, 0);
    RowsNothing(kek, p);
  }

  lemma WrapOfUnwrapped(kek: Block, cipher: bytes, plain: bytes)
    requires |cipher| % 8 == 0 && |cipher| >= 8 && |plain| % 8 == 0
    requires Unwrapped(kek, cipher) == Registers(IV, Split(plain))
    ensures cipher == Wrap(kek, plain)
  {
    hide WrapRows, UnwrapRows, Split, Flatten;
    var c := Registers(cipher[..8], Split(cipher[8..]));
    WrapUndoesRows(kek, c, 6);
    RowsNothing(kek, c);
    FlattenSplit(cipher[8..]);
    assert cipher == cipher[..8] + cipher[8..];
  }

  lemma RowsNothing(kek: Block, s: Registers)
    ensures WrapRows(kek, s, 0) == s
    ensures UnwrapRows(kek, s, 6) == s
  {
  }

  lemma {:induction false} ZeroCounter(width: nat)
    ensures BigEndian(0, width) == Zeros(width)
  {
    if width > 0 {
      ZeroCounter(width - 1);
      assert Byte(0) == 0;
    }
  }

  lemma {:induction false} SplitAt(b: bytes, i: nat)
    requires |b| % 8 == 0 && i < |b| / 8
    ensures Split(b)[i] == b[8 * i..8 * i + 8]
  {
    if i > 0 {
      SplitAt(b[8..], i - 1);
      assert b[8..][8 * (i - 1)..8 * (i - 1) + 8] == b[8 * i..8 * i + 8];
    }
  }

  /** The register with the counter added. */
  function Added(p: bytes, t: nat): (r: bytes)
    ensures |r| == |p|
  {
    Xor(p, BigEndian(t, |p|))
  }

  lemma AddedStep(p: bytes, x: bv8, t: nat)
    ensures Added(p + [x], t) == Added(p, t / 256) + [x ^ Byte(t)]
  {
    hide Byte, Xor;
    XorSnoc(p, BigEndian(t / 256, |p|), x, Byte(t));
  }

  lemma AddedNothing(p: bytes)
    ensures Added(p, 0) == p
  {
    hide BigEndian;
    ZeroCounter(|p|);
  }

  lemma XorSnoc(p: bytes, q: bytes, x: bv8, y: bv8)
    requires |p| == |q|
    ensures Xor(p + [x], q + [y]) == Xor(p, q) + [x ^ y]
  {
    hide Xor;
    var a, b, c := Xor(p + [x], q + [y]), Xor(p, q), x ^ y;
    forall i | 0 <= i < |p|
      ensures a[i] == b[i]
    {
      assert (p + [x])[i] == p[i] && (q + [y])[i] == q[i];
    }
    assert (p + [x])[|p|] == x && (q + [y])[|p|] == y;
    assert a == b + [c];
  }

  method AddByte(block: array<bv8>, k: nat, x: bv8)
    requires k < block.Length
    modifies block
    ensures block[..] == old(block[..])[k := old(block[k]) ^ x]
  {
    block[k] := block[k] ^ x;
  }

  lemma UpdatedParts(b: bytes, k: nat, x: bv8)
    requires k < 8 <= |b|
    ensures var c := b[k := x]; c[..k] == b[..k] && c[k..8] == [x] + b[k + 1..8] && c[8..] == b[8..]
  {
  }

  /** The in-place loop that adds the step counter to the integrity register, low byte first. */
  method AddCounter(block: array<bv8>, t0: nat)
    requires block.Length == 16
    modifies block
    ensures block[..8] == Xor(old(block[..8]), BigEndian(t0, 8))
    ensures block[8..] == old(block[8..])
  {
    hide Byte, Added, Xor, BigEndian;
    var k, t := 8, t0;
    ghost var all := block[..];
    ghost var was, b := all[..8], all;
    while k > 0 && t != 0
      invariant 0 <= k <= 8 && block[..] == b && |b| == 16
      invariant b[..k] == was[..k] && b[8..] == all[8..]
      invariant Added(was, t0) == Added(was[..k], t) + b[k..8]
      decreases k
    {
      k := k - 1;
      AddedStep(was[..k], was[k], t);
      assert was[..k + 1] == was[..k] + [was[k]];
      assert b[k] == was[k] by { assert b[..k + 1][k] == was[..k + 1][k]; }
      AddByte(block, k, Byte(t));
      UpdatedParts(b, k, b[k] ^ Byte(t));
      Joined(Added(was[..k], t / 256), b[k] ^ Byte(t), b[k + 1..8]);
      b := b[k := b[k] ^ Byte(t)];
      t := t / 256;
    }
    if t == 0 {
      AddedNothing(was[..k]);
    }
    assert b[..8] == b[..k] + b[k..8];
    AddedIs(was, t0);
  }

  lemma Joined(p: bytes, x: bv8, q: bytes)
    ensures p + [x] + q == p + ([x] + q)
  {
  }

  lemma AddedIs(p: bytes, t: nat)
    ensures Added(p, t) == Xor(p, BigEndian(t, |p|))
  {
  }

  /** The result of unwrapping, or None when the integrity check or the size test fails. */
  function UnwrapResult(kek: Block, input: bytes): Option<bytes> {
    if |input| < 16 || |input| > 264 || |input| % 8 != 0 then None
    else
      var s := Unwrapped(kek, input);
      if s.a == IV then Some(Flatten(s.r)) else None
  }

  /** Unwrapping succeeds exactly on the wraps of 1 to 32 blocks, and returns what was wrapped. */
  lemma UnwrapInvertsWrap(kek: Block, input: bytes, plain: bytes)
    requires 8 <= |plain| <= 256 && |plain| % 8 == 0
    ensures UnwrapResult(kek, input) == Some(plain) <==> input == Wrap(kek, plain)
  {
    hide Wrap, Unwrapped, Split, Flatten;
    if input == Wrap(kek, plain) {
      UnwrapOfWrap(kek, plain);
      FlattenSplit(plain);
    } else if UnwrapResult(kek, input) == Some(plain) {
      SplitFlatten(Unwrapped(kek, input).r);
      WrapOfUnwrapped(kek, input, plain);
    }
  }

  lemma UnwrapSize(kek: Block, input: bytes)
    ensures match UnwrapResult(kek, input) case None => true case Some(p) => 8 <= |p| <= 256 && |p| % 8 == 0 && |input| == |p| + 8
  {
    hide UnwrapRows, Split;
  }

  /** Unwraps a key, in place on a table of 32 rows. */
  method UnwrapKey(kek: Block, input: bytes) returns (result: Option<bytes>)
    requires |input| < 0x1_0000
    ensures result == UnwrapResult(kek, input)
    ensures forall plain: bytes | 8 <= |plain| <= 256 && |plain| % 8 == 0 ::
      result == Some(plain) <==> input == Wrap(kek, plain)
  {
    hide Wrap, UnwrapRows, Split, Flatten, UnwrapResult;
    result := Unwrap(kek, input);
    forall plain: bytes | 8 <= |plain| <= 256 && |plain| % 8 == 0
      ensures result == Some(plain) <==> input == Wrap(kek, plain)
    {
      UnwrapInvertsWrap(kek, input, plain);
    }
  }

  method Unwrap(kek: Block, input: bytes) returns (result: Option<bytes>)
    requires |input| < 0x1_0000
    ensures result == UnwrapResult(kek, input)
  {
    hide Wrap, UnwrapRows, Split, Flatten;
    if |input| < 16 || |input| % 8 != 0 {
      return None;
    }
    var n := |input| / 8 - 1;
    if n > 32 {
      return None;
    }
    var a := input[..8];
    var r := new Half[32](_ => Zeros(8));
    LoadRows(input[8..], r, n);
    a := UnwrapLoop(kek, a, r, n);
    if a != IV {
      return None;
    }
    var output := StoreRows(r, n);
    return Some(output);
  }

  method LoadRows(input: bytes, r: array<Half>, n: nat)
    requires r.Length == 32 && n <= 32 && |input| == 8 * n
    modifies r
    ensures r[..n] == Split(input)
  {
    for i := 0 to n
      invariant forall k :: 0 <= k < i ==> r[k] == input[8 * k..8 * k + 8]
    {
      r[i] := input[8 * i..8 * i + 8];
    }
    SplitIs(input, r[..n]);
  }

  method UnwrapLoop(kek: Block, a0: Half, r: array<Half>, n: nat) returns (a: Half)
    requires r.Length == 32 && n <= 32
    modifies r
    ensures Registers(a, r[..n]) == UnwrapRows(kek, Registers(a0, old(r[..n])), 0)
  {
    hide UnwrapStep;
    ghost var start := Registers(a0, r[..n]);
    a := a0;
    var j := 6;
    while j > 0
      invariant 0 <= j <= 6
      invariant Registers(a, r[..n]) == UnwrapRows(kek, start, j)
    {
      j := j - 1;
      ghost var row := UnwrapRows(kek, start, j + 1);
      var i := n;
      while i > 0
        invariant 0 <= i <= n
        invariant Registers(a, r[..n]) == UnwrapRow(kek, row, j, i)
      {
        i := i - 1;
        a := UnwrapOne(kek, a, r, n, i, n * j + i + 1);
      }
    }
  }

  method StoreRows(r: array<Half>, n: nat) returns (output: bytes)
    requires r.Length == 32 && n <= 32
    ensures output == Flatten(r[..n])
  {
    output := [];
    for i := 0 to n
      invariant output == Flatten(r[..i])
    {
      FlattenAppend(r[..i], r[i]);
      assert r[..i + 1] == r[..i] + [r[i]];
      output := output + r[i];
    }
  }

  lemma {:induction false} FlattenAppend(r: seq<Half>, h: Half)
    ensures Flatten(r + [h]) == Flatten(r) + h
  {
    if |r| > 0 {
      FlattenAppend(r[1..], h);
      assert (r + [h])[1..] == r[1..] + [h];
    }
  }

  method UnwrapOne(kek: Block, a: Half, r: array<Half>, n: nat, i: nat, t: nat) returns (a': Half)
    requires r.Length == 32 && i < n <= 32
    modifies r
    ensures Registers(a', r[..n]) == UnwrapStep(kek, Registers(a, old(r[..n])), i, t)
  {
    hide InvCipher, Xor, BigEndian;
    var b := a + r[i];
    var block := new bv8[16](k requires 0 <= k < 16 => b[k]);
    assert block[..8] == a && block[8..] == r[i];
    AddCounter(block, t);
    assert block[..] == block[..8] + block[8..];
    var plain := Aes.DecryptBlock(kek, block[..]);
    r[i] := plain[8..];
    a' := plain[..8];
  }

  lemma SplitIs(b: bytes, r: seq<Half>)
    requires |b| == 8 * |r|
    requires forall k :: 0 <= k < |r| ==> b[8 * k..8 * k + 8] == r[k]
    ensures Split(b) == r
  {
    hide Split;
    forall k | 0 <= k < |r|
      ensures Split(b)[k] == r[k]
    {
      SplitAt(b, k);
    }
  }
}
