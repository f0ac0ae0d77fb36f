/** The AES-128 decryption the driver runs, in place on byte arrays. */
module Aes {
  import opened Bytes
  import opened GaloisField
  import opened AesSpec

  const RCON: bytes := [0x01, 0x02, 0x04, 0x08, 0x10, 0x20, 0x40, 0x80, 0x1b, 0x36]

  lemma RconTable(r: nat)
    requires r < 10
    ensures RCON[r] == Rcon(r + 1)
  {
    assert Rcon(1) == 0x01;
    assert Rcon(2) == 0x02;
    assert Rcon(3) == 0x04;
    assert Rcon(4) == 0x08;
    assert Rcon(5) == 0x10;
    assert Rcon(6) == 0x20;
    assert Rcon(7) == 0x40;
    assert Rcon(8) == 0x80;
    assert Rcon(9) == 0x1b;
    assert Rcon(10) == 0x36;
  }

  /** The key schedule: words 0..43 laid out one after the other. */
  ghost predicate Schedule(key: Block, rk: bytes, words: nat) {
    4 * words <= |rk| && forall i :: 0 <= i < words ==> rk[4 * i..4 * i + 4] == KeyWord(key, i)
  }

  /** One pass of the expansion loop: word w of the schedule from words w - 1 and w - 4. */
  method ExpandWord(key: Block, rk: array<bv8>, w: nat)
    requires rk.Length == 176 && 4 <= w < 44
    requires Schedule(key, rk[..], w)
    modifies rk
    ensures Schedule(key, rk[..], w + 1)
  {
    hide KeyWord, Xor, SubWord, RotWord, Rcon;
    var n := 4 * w;
    ghost var before := rk[..];
    ghost var temp := KeyWord(key, w - 1);
    assert before[4 * (w - 1)..4 * (w - 1) + 4] == temp;
    assert before[4 * (w - 4)..4 * (w - 4) + 4] == KeyWord(key, w - 4);
    var t: Word := rk[n - 4..n];
    assert t == temp;
    if n % 16 == 0 {
      t := RotSubWord(t, w / 4 - 1);
    }
    XorWord(rk, n, t);
    NextWord(key, w, t, rk[n..n + 4]);
    ExtendSchedule(key, before, rk[..], w);
  }

  method XorWord(rk: array<bv8>, n: nat, t: Word)
    requires 16 <= n && n + 4 <= rk.Length
    modifies rk
    ensures rk[..n] == old(rk[..n])
    ensures forall k :: 0 <= k < 4 ==> rk[n + k] == old(rk[n - 16 + k]) ^ t[k]
  {
    for i := 0 to 4
      invariant rk[..n] == old(rk[..n])
      invariant forall k :: 0 <= k < i ==> rk[n + k] == old(rk[n - 16 + k]) ^ t[k]
    {
      rk[n + i] := rk[n - 16 + i] ^ t[i];
    }
  }

  lemma ExtendSchedule(key: Block, before: bytes, after: bytes, w: nat)
    requires |after| == |before| && 4 * w + 4 <= |after| && Schedule(key, before, w)
    requires after[..4 * w] == before[..4 * w] && after[4 * w..4 * w + 4] == KeyWord(key, w)
    ensures Schedule(key, after, w + 1)
  {
    hide KeyWord;
    forall i | 0 <= i < w
      ensures after[4 * i..4 * i + 4] == KeyWord(key, i)
    {
      assert before[..4 * w][4 * i..4 * i + 4] == after[..4 * w][4 * i..4 * i + 4];
      assert before[..4 * w][4 * i..4 * i + 4] == before[4 * i..4 * i + 4];
      assert after[..4 * w][4 * i..4 * i + 4] == after[4 * i..4 * i + 4];
    }
  }

  lemma NextWord(key: Block, w: nat, t: Word, word: Word)
    requires w >= 4
    requires t == if w % 4 == 0 then Xor(SubWord(RotWord(KeyWord(key, w - 1))), [Rcon(w / 4), 0, 0, 0]) else KeyWord(key, w - 1)
    requires forall k :: 0 <= k < 4 ==> word[k] == KeyWord(key, w - 4)[k] ^ t[k]
    ensures word == KeyWord(key, w)
  {
    hide Sbox, Rcon, SubWord, RotWord;
  }

  method RoundConstant(r: nat) returns (c: bv8)
    requires r < 10
    ensures c == Rcon(r + 1)
  {
    RconTable(r);
    c := RCON[r];
  }

  function RotSubbed(t: Word): (w: Word)
    ensures w == SubWord(RotWord(t))
  {
    [Sbox(t[1]), Sbox(t[2]), Sbox(t[3]), Sbox(t[0])]
  }

  method RotSubWord(t: Word, r: nat) returns (u: Word)
    requires r < 10
    ensures u == Xor(SubWord(RotWord(t)), [Rcon(r + 1), 0, 0, 0])
  {
    hide RotSubbed, SubWord, RotWord, Rcon, Xor;
    var c := RoundConstant(r);
    var w := RotSubbed(t);
    u := [w[0] ^ c, w[1], w[2], w[3]];
    XorFirst(w, c, u);
  }

  lemma XorFirst(w: Word, c: bv8, u: Word)
    requires u[0] == w[0] ^ c && u[1] == w[1] && u[2] == w[2] && u[3] == w[3]
    ensures u == Xor(w, [c, 0, 0, 0])
  {
  }

  method KeyExpand(key: Block, rk: array<bv8>)
    requires rk.Length == 176
    modifies rk
    ensures Schedule(key, rk[..], 44)
  {
    for i := 0 to 16
      invariant forall k :: 0 <= k < i ==> rk[k] == key[k]
    {
      rk[i] := key[i];
    }
    assert forall i :: 0 <= i < 4 ==> rk[..][4 * i..4 * i + 4] == key[4 * i..4 * i + 4];
    hide KeyWord;
    assert Schedule(key, rk[..], 4) by { FirstWords(key); }
    for w := 4 to 44
      invariant Schedule(key, rk[..], w)
    {
      ExpandWord(key, rk, w);
    }
  }

  lemma FirstWords(key: Block)
    ensures forall i :: 0 <= i < 4 ==> KeyWord(key, i) == key[4 * i..4 * i + 4]
  {
  }

  method AddRoundKey(s: array<bv8>, rk: array<bv8>, offset: nat)
    requires s.Length == 16 && offset + 16 <= rk.Length && s != rk
    modifies s
    ensures s[..] == Xor(old(s[..]), rk[offset..offset + 16])
  {
    for i := 0 to 16
      invariant forall k :: 0 <= k < i ==> s[k] == old(s[k]) ^ rk[offset + k]
      invariant forall k :: i <= k < 16 ==> s[k] == old(s[k])
    {
      s[i] := s[i] ^ rk[offset + i];
    }
  }

  function RotatedRow1(s: Block): Block {
    s[1 := s[13]][5 := s[1]][9 := s[5]][13 := s[9]]
  }

  function RotatedRow2(s: Block): Block {
    s[2 := s[10]][6 := s[14]][10 := s[2]][14 := s[6]]
  }

  function RotatedRow3(s: Block): Block {
    s[3 := s[7]][7 := s[11]][11 := s[15]][15 := s[3]]
  }

  lemma RowRotations(s: Block)
    ensures InvShiftRows(s) == RotatedRow3(RotatedRow2(RotatedRow1(s)))
  {
    RightTable();
    hide Right;
  }

  lemma RightTable()
    ensures Right(0, 4) == 0 && Right(1, 3) == 13 && Right(2, 2) == 10 && Right(3, 1) == 7
    ensures Right(4, 4) == 4 && Right(5, 3) == 1 && Right(6, 2) == 14 && Right(7, 1) == 11
    ensures Right(8, 4) == 8 && Right(9, 3) == 5 && Right(10, 2) == 2 && Right(11, 1) == 15
    ensures Right(12, 4) == 12 && Right(13, 3) == 9 && Right(14, 2) == 6 && Right(15, 1) == 3
  {
  }

  method RotateRow1(s: array<bv8>)
    requires s.Length == 16
    modifies s
    ensures s[..] == RotatedRow1(old(s[..]))
  {
    var t := s[13];
    s[13] := s[9];
    s[9] := s[5];
    s[5] := s[1];
    s[1] := t;
  }

  method RotateRow2(s: array<bv8>)
    requires s.Length == 16
    modifies s
    ensures s[..] == RotatedRow2(old(s[..]))
  {
    var t := s[2];
    s[2] := s[10];
    s[10] := t;
    t := s[6];
    s[6] := s[14];
    s[14] := t;
  }

  method RotateRow3(s: array<bv8>)
    requires s.Length == 16
    modifies s
    ensures s[..] == RotatedRow3(old(s[..]))
  {
    var t := s[3];
    s[3] := s[7];
    s[7] := s[11];
    s[11] := s[15];
    s[15] := t;
  }

  method InvShiftRowsInPlace(s: array<bv8>)
    requires s.Length == 16
    modifies s
    ensures s[..] == InvShiftRows(old(s[..]))
  {
    hide InvShiftRows, RotatedRow1, RotatedRow2, RotatedRow3;
    RowRotations(s[..]);
    RotateRow1(s);
    RotateRow2(s);
    RotateRow3(s);
  }

  method InvSubBytesInPlace(s: array<bv8>)
    requires s.Length == 16
    modifies s
    ensures s[..] == InvSubBytes(old(s[..]))
  {
    for i := 0 to 16
      invariant forall k :: 0 <= k < i ==> s[k] == Rsbox(old(s[k]))
      invariant forall k :: i <= k < 16 ==> s[k] == old(s[k])
    {
      s[i] := Rsbox(s[i]);
    }
  }

  method InvMixOne(a: bv8, b: bv8, c: bv8, d: bv8) returns (r: bv8)
    ensures r == InvMixByte(a, b, c, d)
  {
    hide Mul;
    var p := AesMul(a, 0x0e);
    var q := AesMul(b, 0x0b);
    var u := AesMul(c, 0x0d);
    var v := AesMul(d, 0x09);
    r := p ^ q ^ u ^ v;
  }

  lemma InvMixColumn(s: Block, c: nat)
    requires c < 4
    ensures var a0, a1, a2, a3 := s[4 * c], s[4 * c + 1], s[4 * c + 2], s[4 * c + 3];
            && InvMixColumns(s)[4 * c] == InvMixByte(a0, a1, a2, a3)
            && InvMixColumns(s)[4 * c + 1] == InvMixByte(a1, a2, a3, a0)
            && InvMixColumns(s)[4 * c + 2] == InvMixByte(a2, a3, a0, a1)
            && InvMixColumns(s)[4 * c + 3] == InvMixByte(a3, a0, a1, a2)
  {
    hide InvMixByte, Below;
    ColumnOf(c, 0);
    ColumnOf(c, 1);
    ColumnOf(c, 2);
    ColumnOf(c, 3);
  }

  lemma ColumnOf(c: nat, r: nat)
    requires c < 4 && r < 4
    ensures Below(4 * c + r, 0) == 4 * c + r
    ensures Below(4 * c + r, 1) == 4 * c + (if r < 3 then r + 1 else r - 3)
    ensures Below(4 * c + r, 2) == 4 * c + (if r < 2 then r + 2 else r - 2)
    ensures Below(4 * c + r, 3) == 4 * c + (if r < 1 then r + 3 else r - 1)
  {
  }

  /** One column, its four bytes read before any is written. */
  method InvMixColumnInPlace(s: array<bv8>, c: nat)
    requires s.Length == 16 && c < 4
    modifies s
    ensures forall i :: 0 <= i < 16 && !(4 * c <= i < 4 * c + 4) ==> s[i] == old(s[i])
    ensures s[4 * c] == InvMixByte(old(s[4 * c]), old(s[4 * c + 1]), old(s[4 * c + 2]), old(s[4 * c + 3]))
    ensures s[4 * c + 1] == InvMixByte(old(s[4 * c + 1]), old(s[4 * c + 2]), old(s[4 * c + 3]), old(s[4 * c]))
    ensures s[4 * c + 2] == InvMixByte(old(s[4 * c + 2]), old(s[4 * c + 3]), old(s[4 * c]), old(s[4 * c + 1]))
    ensures s[4 * c + 3] == InvMixByte(old(s[4 * c + 3]), old(s[4 * c]), old(s[4 * c + 1]), old(s[4 * c + 2]))
  {
    hide InvMixByte;
    var a0, a1, a2, a3 := s[4 * c], s[4 * c + 1], s[4 * c + 2], s[4 * c + 3];
    s[4 * c] := InvMixOne(a0, a1, a2, a3);
    s[4 * c + 1] := InvMixOne(a1, a2, a3, a0);
    s[4 * c + 2] := InvMixOne(a2, a3, a0, a1);
    s[4 * c + 3] := InvMixOne(a3, a0, a1, a2);
  }

  method InvMixColumnsInPlace(s: array<bv8>)
    requires s.Length == 16
    modifies s
    ensures s[..] == InvMixColumns(old(s[..]))
  {
    hide InvMixByte, InvMixColumns;
    ghost var before := s[..];
    ghost var goal := InvMixColumns(before);
    for c := 0 to 4
      invariant forall i :: 0 <= i < 4 * c ==> s[i] == goal[i]
      invariant forall i :: 4 * c <= i < 16 ==> s[i] == before[i]
    {
      InvMixColumn(before, c);
      InvMixColumnInPlace(s, c);
      FourMore(s[..], goal, c);
    }
  }

  lemma FourMore(s: Block, goal: Block, c: nat)
    requires c < 4 && forall i :: 0 <= i < 4 * c ==> s[i] == goal[i]
    requires s[4 * c] == goal[4 * c] && s[4 * c + 1] == goal[4 * c + 1]
    requires s[4 * c + 2] == goal[4 * c + 2] && s[4 * c + 3] == goal[4 * c + 3]
    ensures forall i :: 0 <= i < 4 * c + 4 ==> s[i] == goal[i]
  {
  }

  /** Decrypts one block; the result is the FIPS 197 inverse cipher, hence undoes the cipher. */
  method DecryptBlock(key: Block, input: Block) returns (output: Block)
    ensures output == InvCipher(key, input)
    ensures Cipher(key, output) == input
    ensures forall plain: Block :: input == Cipher(key, plain) ==> output == plain
  {
    hide Xor, InvShiftRows, InvSubBytes, InvMixColumns, RoundKey, Cipher, Schedule;
    var rk := new bv8[176];
    KeyExpand(key, rk);
    var s := new bv8[16](i requires 0 <= i < 16 => input[i]);
    assert s[..] == input;
    AddRoundKey(s, rk, 160);
    ScheduleRound(key, rk[..], 10);
    var round := 9;
    while round >= 1
      invariant 0 <= round <= 9
      invariant Schedule(key, rk[..], 44)
      invariant s[..] == InvRounds(key, input, round + 1)
    {
      InvShiftRowsInPlace(s);
      InvSubBytesInPlace(s);
      AddRoundKey(s, rk, 16 * round);
      ScheduleRound(key, rk[..], round);
      InvMixColumnsInPlace(s);
      round := round - 1;
    }
    InvShiftRowsInPlace(s);
    InvSubBytesInPlace(s);
    AddRoundKey(s, rk, 0);
    ScheduleRound(key, rk[..], 0);
    output := s[..];
    CipherInverse(key, input);
    forall plain: Block | input == Cipher(key, plain)
      ensures output == plain
    {
      CipherInverse(key, plain);
    }
  }

  lemma ScheduleRound(key: Block, rk: bytes, round: nat)
    requires Schedule(key, rk, 44) && round <= 10
    ensures rk[16 * round..16 * round + 16] == RoundKey(key, round)
  {
    hide KeyWord;
    var n := 4 * round;
    assert rk[4 * n..4 * n + 4] == KeyWord(key, n);
    assert rk[4 * (n + 1)..4 * (n + 1) + 4] == KeyWord(key, n + 1);
    assert rk[4 * (n + 2)..4 * (n + 2) + 4] == KeyWord(key, n + 2);
    assert rk[4 * (n + 3)..4 * (n + 3) + 4] == KeyWord(key, n + 3);
  }
}
