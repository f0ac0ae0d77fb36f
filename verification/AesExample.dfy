/** The worked examples of FIPS 197: the key expansion of appendix A.1 and the cipher of appendix B. */
module AesExample {
  import opened Bytes
  import opened GaloisField
  import opened AesSpec

  const KEY: Block := [0x2b, 0x7e, 0x15, 0x16, 0x28, 0xae, 0xd2, 0xa6, 0xab, 0xf7, 0x15, 0x88, 0x09, 0xcf, 0x4f, 0x3c]
  const INPUT: Block := [0x32, 0x43, 0xf6, 0xa8, 0x88, 0x5a, 0x30, 0x8d, 0x31, 0x31, 0x98, 0xa2, 0xe0, 0x37, 0x07, 0x34]

  // One step on the bytes.

  lemma XorWords(a: Word, b: Word)
    ensures Xor(a, b) == Other(a, b)
  {
  }

  function First(u: Word, v: Word, rcon: bv8): Word {
    [Add(Add(u[0], Sbox(v[1])), rcon), Add(u[1], Sbox(v[2])), Add(u[2], Sbox(v[3])), Add(u[3], Sbox(v[0]))]
  }

  function Other(u: Word, v: Word): Word {
    [Add(u[0], v[0]), Add(u[1], v[1]), Add(u[2], v[2]), Add(u[3], v[3])]
  }

  lemma FirstOn(key: Block, i: nat, u: Word, v: Word)
    requires i >= 4 && i % 4 == 0 && KeyWord(key, i - 4) == u && KeyWord(key, i - 1) == v
    ensures KeyWord(key, i) == First(u, v, Rcon(i / 4))
  {
    hide Sbox, Rcon, Xor, Add;
    FirstIs(u, v, Rcon(i / 4));
  }

  lemma FirstIs(u: Word, v: Word, rcon: bv8)
    ensures Xor(u, Xor(SubWord(RotWord(v)), [rcon, 0, 0, 0])) == First(u, v, rcon)
  {
    hide Sbox, Xor, Add;
    var w := SubWord(RotWord(v));
    XorWords(w, [rcon, 0, 0, 0]);
    XorWords(u, Other(w, [rcon, 0, 0, 0]));
    Regroup(u[0], w[0], rcon);
    NoChange(w[1]);
    NoChange(w[2]);
    NoChange(w[3]);
  }

  lemma Regroup(a: bv8, b: bv8, c: bv8)
    ensures Add(a, Add(b, c)) == Add(Add(a, b), c)
  {
  }

  lemma NoChange(a: bv8)
    ensures Add(a, 0) == a
  {
  }

  lemma OtherOn(key: Block, i: nat, u: Word, v: Word)
    requires i >= 4 && i % 4 != 0 && KeyWord(key, i - 4) == u && KeyWord(key, i - 1) == v
    ensures KeyWord(key, i) == Other(u, v)
  {
    hide Rcon, Xor;
    XorWords(u, v);
  }

  /** The words of a round key. */
  ghost predicate Words(r: nat, a: Word, b: Word, c: Word, d: Word) {
    hide KeyWord;
    KeyWord(KEY, 4 * r) == a && KeyWord(KEY, 4 * r + 1) == b && KeyWord(KEY, 4 * r + 2) == c && KeyWord(KEY, 4 * r + 3) == d
  }

  lemma WordsOn(r: nat, a: Word, b: Word, c: Word, d: Word)
    requires Words(r, a, b, c, d)
    ensures var p := First(a, d, Rcon(r + 1)); var q := Other(b, p); var s := Other(c, q); Words(r + 1, p, q, s, Other(d, s))
  {
    hide KeyWord, First, Other, Rcon;
    var p := First(a, d, Rcon(r + 1));
    FirstOn(KEY, 4 * r + 4, a, d);
    OtherOn(KEY, 4 * r + 5, b, p);
    OtherOn(KEY, 4 * r + 6, c, Other(b, p));
    OtherOn(KEY, 4 * r + 7, d, Other(c, Other(b, p)));
  }

  function Sub(s: Block, i: Index): bv8 {
    hide Sbox;
    Sbox(s[Right(i, i % 4)])
  }

  lemma RoundByte(s: Block, k: Block, i: Index)
    ensures Xor(MixColumns(ShiftRows(SubBytes(s))), k)[i]
         == Add(MixByte(Sub(s, Below(i, 0)), Sub(s, Below(i, 1)), Sub(s, Below(i, 2)), Sub(s, Below(i, 3))), k[i])
  {
    hide Sbox, MixByte, Right, Below;
  }

  function Mixed(p: bv8, q: bv8, r: bv8, s: bv8, k: Word): Word {
    [Add(MixByte(p, q, r, s), k[0]), Add(MixByte(q, r, s, p), k[1]), Add(MixByte(r, s, p, q), k[2]), Add(MixByte(s, p, q, r), k[3])]
  }

  /** One column of the next state: four bytes of the old one on a diagonal, and four of the round key. */
  function Column(a: bv8, b: bv8, c: bv8, d: bv8, k: Word): Word {
    Mixed(Sbox(a), Sbox(b), Sbox(c), Sbox(d), k)
  }

  lemma MixedIs(t: Block, k: Block, i: Index, p: bv8, q: bv8, r: bv8, s: bv8)
    requires i + 4 <= 16 && t[i] == Add(MixByte(p, q, r, s), k[i]) && t[i + 1] == Add(MixByte(q, r, s, p), k[i + 1])
    requires t[i + 2] == Add(MixByte(r, s, p, q), k[i + 2]) && t[i + 3] == Add(MixByte(s, p, q, r), k[i + 3])
    ensures t[i..i + 4] == Mixed(p, q, r, s, k[i..i + 4])
  {
    hide MixByte, Add;
  }

  lemma Column0(s: Block, k: Block)
    ensures Xor(MixColumns(ShiftRows(SubBytes(s))), k)[0..4] == Column(s[0], s[5], s[10], s[15], k[0..4])
  {
    hide Sbox, MixByte, Mixed, Add, SubBytes, ShiftRows, MixColumns, Xor;
    RoundByte(s, k, 0);
    RoundByte(s, k, 1);
    RoundByte(s, k, 2);
    RoundByte(s, k, 3);
    MixedIs(Xor(MixColumns(ShiftRows(SubBytes(s))), k), k, 0, Sbox(s[0]), Sbox(s[5]), Sbox(s[10]), Sbox(s[15]));
  }

  lemma Column1(s: Block, k: Block)
    ensures Xor(MixColumns(ShiftRows(SubBytes(s))), k)[4..8] == Column(s[4], s[9], s[14], s[3], k[4..8])
  {
    hide Sbox, MixByte, Mixed, Add, SubBytes, ShiftRows, MixColumns, Xor;
    RoundByte(s, k, 4);
    RoundByte(s, k, 5);
    RoundByte(s, k, 6);
    RoundByte(s, k, 7);
    MixedIs(Xor(MixColumns(ShiftRows(SubBytes(s))), k), k, 4, Sbox(s[4]), Sbox(s[9]), Sbox(s[14]), Sbox(s[3]));
  }

  lemma Column2(s: Block, k: Block)
    ensures Xor(MixColumns(ShiftRows(SubBytes(s))), k)[8..12] == Column(s[8], s[13], s[2], s[7], k[8..12])
  {
    hide Sbox, MixByte, Mixed, Add, SubBytes, ShiftRows, MixColumns, Xor;
    RoundByte(s, k, 8);
    RoundByte(s, k, 9);
    RoundByte(s, k, 10);
    RoundByte(s, k, 11);
    MixedIs(Xor(MixColumns(ShiftRows(SubBytes(s))), k), k, 8, Sbox(s[8]), Sbox(s[13]), Sbox(s[2]), Sbox(s[7]));
  }

  lemma Column3(s: Block, k: Block)
    ensures Xor(MixColumns(ShiftRows(SubBytes(s))), k)[12..16] == Column(s[12], s[1], s[6], s[11], k[12..16])
  {
    hide Sbox, MixByte, Mixed, Add, SubBytes, ShiftRows, MixColumns, Xor;
    RoundByte(s, k, 12);
    RoundByte(s, k, 13);
    RoundByte(s, k, 14);
    RoundByte(s, k, 15);
    MixedIs(Xor(MixColumns(ShiftRows(SubBytes(s))), k), k, 12, Sbox(s[12]), Sbox(s[1]), Sbox(s[6]), Sbox(s[11]));
  }

  /** A full round, column by column. */
  lemma RoundIs(s: Block, a: Word, b: Word, c: Word, d: Word)
    ensures Xor(MixColumns(ShiftRows(SubBytes(s))), a + b + c + d)
         == Column(s[0], s[5], s[10], s[15], a) + Column(s[4], s[9], s[14], s[3], b)
            + Column(s[8], s[13], s[2], s[7], c) + Column(s[12], s[1], s[6], s[11], d)
  {
    hide Column, SubBytes, ShiftRows, MixColumns, Xor;
    var k := a + b + c + d;
    Column0(s, k);
    Column1(s, k);
    Column2(s, k);
    Column3(s, k);
    var t := Xor(MixColumns(ShiftRows(SubBytes(s))), k);
    assert t == t[0..4] + t[4..8] + t[8..12] + t[12..16];
    assert k[0..4] == a && k[4..8] == b && k[8..12] == c && k[12..16] == d;
  }

  // The example.

  lemma Key0()
    ensures Words(0, [0x2b, 0x7e, 0x15, 0x16], [0x28, 0xae, 0xd2, 0xa6], [0xab, 0xf7, 0x15, 0x88], [0x09, 0xcf, 0x4f, 0x3c])
  {
  }

  lemma Key1()
    ensures Words(1, [0xa0, 0xfa, 0xfe, 0x17], [0x88, 0x54, 0x2c, 0xb1],
                  [0x23, 0xa3, 0x39, 0x39], [0x2a, 0x6c, 0x76, 0x05])
  {
    hide Words;
    Key0();
    WordsOn(0, [0x2b, 0x7e, 0x15, 0x16], [0x28, 0xae, 0xd2, 0xa6],
            [0xab, 0xf7, 0x15, 0x88], [0x09, 0xcf, 0x4f, 0x3c]);
    assert Rcon(1) == 0x01 by { Rcons(); }
  }

  lemma Key2()
    ensures Words(2, [0xf2, 0xc2, 0x95, 0xf2], [0x7a, 0x96, 0xb9, 0x43],
                  [0x59, 0x35, 0x80, 0x7a], [0x73, 0x59, 0xf6, 0x7f])
  {
    hide Words;
    Key1();
    WordsOn(1, [0xa0, 0xfa, 0xfe, 0x17], [0x88, 0x54, 0x2c, 0xb1],
            [0x23, 0xa3, 0x39, 0x39], [0x2a, 0x6c, 0x76, 0x05]);
    assert Rcon(2) == 0x02 by { Rcons(); }
  }

  lemma Key3()
    ensures Words(3, [0x3d, 0x80, 0x47, 0x7d], [0x47, 0x16, 0xfe, 0x3e],
                  [0x1e, 0x23, 0x7e, 0x44], [0x6d, 0x7a, 0x88, 0x3b])
  {
    hide Words;
    Key2();
    WordsOn(2, [0xf2, 0xc2, 0x95, 0xf2], [0x7a, 0x96, 0xb9, 0x43],
            [0x59, 0x35, 0x80, 0x7a], [0x73, 0x59, 0xf6, 0x7f]);
    assert Rcon(3) == 0x04 by { Rcons(); }
  }

  lemma Key4()
    ensures Words(4, [0xef, 0x44, 0xa5, 0x41], [0xa8, 0x52, 0x5b, 0x7f],
                  [0xb6, 0x71, 0x25, 0x3b], [0xdb, 0x0b, 0xad, 0x00])
  {
    hide Words;
    Key3();
    WordsOn(3, [0x3d, 0x80, 0x47, 0x7d], [0x47, 0x16, 0xfe, 0x3e],
            [0x1e, 0x23, 0x7e, 0x44], [0x6d, 0x7a, 0x88, 0x3b]);
    assert Rcon(4) == 0x08 by { Rcons(); }
  }

  lemma Key5()
    ensures Words(5, [0xd4, 0xd1, 0xc6, 0xf8], [0x7c, 0x83, 0x9d, 0x87],
                  [0xca, 0xf2, 0xb8, 0xbc], [0x11, 0xf9, 0x15, 0xbc])
  {
    hide Words;
    Key4();
    WordsOn(4, [0xef, 0x44, 0xa5, 0x41], [0xa8, 0x52, 0x5b, 0x7f],
            [0xb6, 0x71, 0x25, 0x3b], [0xdb, 0x0b, 0xad, 0x00]);
    assert Rcon(5) == 0x10 by { Rcons(); }
  }

  lemma Key6()
    ensures Words(6, [0x6d, 0x88, 0xa3, 0x7a], [0x11, 0x0b, 0x3e, 0xfd],
                  [0xdb, 0xf9, 0x86, 0x41], [0xca, 0x00, 0x93, 0xfd])
  {
    hide Words;
    Key5();
    WordsOn(5, [0xd4, 0xd1, 0xc6, 0xf8], [0x7c, 0x83, 0x9d, 0x87],
            [0xca, 0xf2, 0xb8, 0xbc], [0x11, 0xf9, 0x15, 0xbc]);
    assert Rcon(6) == 0x20 by { Rcons(); }
  }

  lemma Key7()
    ensures Words(7, [0x4e, 0x54, 0xf7, 0x0e], [0x5f, 0x5f, 0xc9, 0xf3],
                  [0x84, 0xa6, 0x4f, 0xb2], [0x4e, 0xa6, 0xdc, 0x4f])
  {
    hide Words;
    Key6();
    WordsOn(6, [0x6d, 0x88, 0xa3, 0x7a], [0x11, 0x0b, 0x3e, 0xfd],
            [0xdb, 0xf9, 0x86, 0x41], [0xca, 0x00, 0x93, 0xfd]);
    assert Rcon(7) == 0x40 by { Rcons(); }
  }

  lemma Key8()
    ensures Words(8, [0xea, 0xd2, 0x73, 0x21], [0xb5, 0x8d, 0xba, 0xd2],
                  [0x31, 0x2b, 0xf5, 0x60], [0x7f, 0x8d, 0x29, 0x2f])
  {
    hide Words;
    Key7();
    WordsOn(7, [0x4e, 0x54, 0xf7, 0x0e], [0x5f, 0x5f, 0xc9, 0xf3],
            [0x84, 0xa6, 0x4f, 0xb2], [0x4e, 0xa6, 0xdc, 0x4f]);
    assert Rcon(8) == 0x80 by { Rcons(); }
  }

  lemma Key9()
    ensures Words(9, [0xac, 0x77, 0x66, 0xf3], [0x19, 0xfa, 0xdc, 0x21],
                  [0x28, 0xd1, 0x29, 0x41], [0x57, 0x5c, 0x00, 0x6e])
  {
    hide Words;
    Key8();
    WordsOn(8, [0xea, 0xd2, 0x73, 0x21], [0xb5, 0x8d, 0xba, 0xd2],
            [0x31, 0x2b, 0xf5, 0x60], [0x7f, 0x8d, 0x29, 0x2f]);
    assert Rcon(9) == 0x1b by { Rcons(); }
  }

  lemma Key10()
    ensures Words(10, [0xd0, 0x14, 0xf9, 0xa8], [0xc9, 0xee, 0x25, 0x89],
                  [0xe1, 0x3f, 0x0c, 0xc8], [0xb6, 0x63, 0x0c, 0xa6])
  {
    hide Words;
    Key9();
    WordsOn(9, [0xac, 0x77, 0x66, 0xf3], [0x19, 0xfa, 0xdc, 0x21],
            [0x28, 0xd1, 0x29, 0x41], [0x57, 0x5c, 0x00, 0x6e]);
    assert Rcon(10) == 0x36 by { Rcons(); }
  }

  lemma Rcons()
    ensures Rcon(1) == 0x01 && Rcon(2) == 0x02 && Rcon(3) == 0x04 && Rcon(4) == 0x08 && Rcon(5) == 0x10
    ensures Rcon(6) == 0x20 && Rcon(7) == 0x40 && Rcon(8) == 0x80 && Rcon(9) == 0x1b && Rcon(10) == 0x36
  {
  }
  lemma RoundOn(r: nat, s: Block, a: Word, b: Word, c: Word, d: Word)
    requires r > 0 && After(r - 1, s) && Words(r, a, b, c, d)
    ensures After(r, Column(s[0], s[5], s[10], s[15], a) + Column(s[4], s[9], s[14], s[3], b)
                     + Column(s[8], s[13], s[2], s[7], c) + Column(s[12], s[1], s[6], s[11], d))
  {
    hide Column, SubBytes, ShiftRows, MixColumns, Xor, KeyWord;
    RoundIs(s, a, b, c, d);
  }

  lemma XorQuarters(a: Word, b: Word, c: Word, d: Word, e: Word, f: Word, g: Word, h: Word)
    ensures Xor(a + b + c + d, e + f + g + h) == Other(a, e) + Other(b, f) + Other(c, g) + Other(d, h)
  {
    hide Xor;
    XorWords(a, e);
    XorWords(b, f);
    XorWords(c, g);
    XorWords(d, h);
    hide Other;
    XorConcat(a + b + c, d, e + f + g, h);
    XorConcat(a + b, c, e + f, g);
    XorConcat(a, b, e, f);
  }

  lemma XorConcat(a: bytes, b: bytes, c: bytes, d: bytes)
    requires |a| == |c| && |b| == |d|
    ensures Xor(a + b, c + d) == Xor(a, c) + Xor(b, d)
  {
  }

  function Quarter(s: Block, i: Index): Word
    requires i <= 12
  {
    hide Sub;
    [Sub(s, i), Sub(s, i + 1), Sub(s, i + 2), Sub(s, i + 3)]
  }

  lemma ShiftedByte(s: Block)
    ensures forall i: Index :: ShiftRows(SubBytes(s))[i] == Sub(s, i)
  {
    hide Sbox, Right;
  }

  lemma Shifted(s: Block)
    ensures ShiftRows(SubBytes(s)) == Quarter(s, 0) + Quarter(s, 4) + Quarter(s, 8) + Quarter(s, 12)
  {
    hide SubBytes, ShiftRows, Sub;
    ShiftedByte(s);
    var t := ShiftRows(SubBytes(s));
    assert t[0..4] == Quarter(s, 0) && t[4..8] == Quarter(s, 4) && t[8..12] == Quarter(s, 8) && t[12..16] == Quarter(s, 12);
    assert t == t[0..4] + t[4..8] + t[8..12] + t[12..16];
  }

  /** The state after this many full rounds. */
  ghost predicate After(r: nat, s: bytes) {
    hide Rounds;
    Rounds(KEY, INPUT, r) == s
  }

  lemma LastRound(key: Block, input: Block, r: nat)
    requires r == 9
    ensures Cipher(key, input) == Xor(ShiftRows(SubBytes(Rounds(key, input, r))), RoundKey(key, r + 1))
  {
    hide Rounds, RoundKey, Xor, SubBytes, ShiftRows;
  }

  lemma LastQuarters(s: Block, a: Word, b: Word, c: Word, d: Word)
    ensures Xor(ShiftRows(SubBytes(s)), a + b + c + d)
         == Other(Quarter(s, 0), a) + Other(Quarter(s, 4), b) + Other(Quarter(s, 8), c) + Other(Quarter(s, 12), d)
  {
    hide Quarter, Xor, Other, SubBytes, ShiftRows;
    Shifted(s);
    XorQuarters(Quarter(s, 0), Quarter(s, 4), Quarter(s, 8), Quarter(s, 12), a, b, c, d);
  }

  lemma RoundKeyIs(r: nat, a: Word, b: Word, c: Word, d: Word)
    requires Words(r, a, b, c, d)
    ensures RoundKey(KEY, r) == a + b + c + d
  {
    hide KeyWord;
  }

  lemma Sums0()
    ensures Other([0x32, 0x43, 0xf6, 0xa8], [0x2b, 0x7e, 0x15, 0x16]) == [0x19, 0x3d, 0xe3, 0xbe]
    ensures Other([0x88, 0x5a, 0x30, 0x8d], [0x28, 0xae, 0xd2, 0xa6]) == [0xa0, 0xf4, 0xe2, 0x2b]
    ensures Other([0x31, 0x31, 0x98, 0xa2], [0xab, 0xf7, 0x15, 0x88]) == [0x9a, 0xc6, 0x8d, 0x2a]
    ensures Other([0xe0, 0x37, 0x07, 0x34], [0x09, 0xcf, 0x4f, 0x3c]) == [0xe9, 0xf8, 0x48, 0x08]
  {
  }

  /** The state after the first round key, and after each full round. */
  lemma State0()
    ensures After(0, [0x19, 0x3d, 0xe3, 0xbe, 0xa0, 0xf4, 0xe2, 0x2b, 0x9a, 0xc6, 0x8d, 0x2a, 0xe9, 0xf8, 0x48, 0x08])
  {
    hide KeyWord, Xor, Other;
    Key0();
    Sums0();
    XorQuarters([0x32, 0x43, 0xf6, 0xa8], [0x88, 0x5a, 0x30, 0x8d], [0x31, 0x31, 0x98, 0xa2], [0xe0, 0x37, 0x07, 0x34],
                [0x2b, 0x7e, 0x15, 0x16], [0x28, 0xae, 0xd2, 0xa6], [0xab, 0xf7, 0x15, 0x88], [0x09, 0xcf, 0x4f, 0x3c]);
    assert INPUT == [0x32, 0x43, 0xf6, 0xa8] + [0x88, 0x5a, 0x30, 0x8d] + [0x31, 0x31, 0x98, 0xa2] + [0xe0, 0x37, 0x07, 0x34];
  }

  lemma Subs1()
    ensures Sbox(0x19) == 0xd4 && Sbox(0x3d) == 0x27 && Sbox(0xe3) == 0x11 && Sbox(0xbe) == 0xae
    ensures Sbox(0xa0) == 0xe0 && Sbox(0xf4) == 0xbf && Sbox(0xe2) == 0x98 && Sbox(0x2b) == 0xf1
  {
  }

  lemma MoreSubs1()
    ensures Sbox(0x9a) == 0xb8 && Sbox(0xc6) == 0xb4 && Sbox(0x8d) == 0x5d && Sbox(0x2a) == 0xe5
    ensures Sbox(0xe9) == 0x1e && Sbox(0xf8) == 0x41 && Sbox(0x48) == 0x52 && Sbox(0x08) == 0x30
  {
  }

  lemma Mixes1()
    ensures MixByte(0xd4, 0xbf, 0x5d, 0x30) == 0x04 && MixByte(0xbf, 0x5d, 0x30, 0xd4) == 0x66
    ensures MixByte(0x5d, 0x30, 0xd4, 0xbf) == 0x81 && MixByte(0x30, 0xd4, 0xbf, 0x5d) == 0xe5
    ensures MixByte(0xe0, 0xb4, 0x52, 0xae) == 0xe0 && MixByte(0xb4, 0x52, 0xae, 0xe0) == 0xcb
    ensures MixByte(0x52, 0xae, 0xe0, 0xb4) == 0x19 && MixByte(0xae, 0xe0, 0xb4, 0x52) == 0x9a
    ensures MixByte(0xb8, 0x41, 0x11, 0xf1) == 0x48 && MixByte(0x41, 0x11, 0xf1, 0xb8) == 0xf8
    ensures MixByte(0x11, 0xf1, 0xb8, 0x41) == 0xd3 && MixByte(0xf1, 0xb8, 0x41, 0x11) == 0x7a
    ensures MixByte(0x1e, 0x27, 0x98, 0xe5) == 0x28 && MixByte(0x27, 0x98, 0xe5, 0x1e) == 0x06
    ensures MixByte(0x98, 0xe5, 0x1e, 0x27) == 0x26 && MixByte(0xe5, 0x1e, 0x27, 0x98) == 0x4c
  {
  }

  lemma State1()
    ensures After(1, [0xa4, 0x9c, 0x7f, 0xf2, 0x68, 0x9f, 0x35, 0x2b, 0x6b, 0x5b, 0xea, 0x43, 0x02, 0x6a, 0x50, 0x49])
  {
    hide Words, Rounds, Sbox, MixByte;
    State0();
    Key1();
    Subs1();
    MoreSubs1();
    Mixes1();
    RoundOn(1, [0x19, 0x3d, 0xe3, 0xbe, 0xa0, 0xf4, 0xe2, 0x2b, 0x9a, 0xc6, 0x8d, 0x2a, 0xe9, 0xf8, 0x48, 0x08],
            [0xa0, 0xfa, 0xfe, 0x17], [0x88, 0x54, 0x2c, 0xb1],
            [0x23, 0xa3, 0x39, 0x39], [0x2a, 0x6c, 0x76, 0x05]);
  }

  lemma Subs2()
    ensures Sbox(0xa4) == 0x49 && Sbox(0x9c) == 0xde && Sbox(0x7f) == 0xd2 && Sbox(0xf2) == 0x89
    ensures Sbox(0x68) == 0x45 && Sbox(0x9f) == 0xdb && Sbox(0x35) == 0x96 && Sbox(0x2b) == 0xf1
  {
  }

  lemma MoreSubs2()
    ensures Sbox(0x6b) == 0x7f && Sbox(0x5b) == 0x39 && Sbox(0xea) == 0x87 && Sbox(0x43) == 0x1a
    ensures Sbox(0x02) == 0x77 && Sbox(0x6a) == 0x02 && Sbox(0x50) == 0x53 && Sbox(0x49) == 0x3b
  {
  }

  lemma Mixes2()
    ensures MixByte(0x49, 0xdb, 0x87, 0x3b) == 0x58 && MixByte(0xdb, 0x87, 0x3b, 0x49) == 0x4d
    ensures MixByte(0x87, 0x3b, 0x49, 0xdb) == 0xca && MixByte(0x3b, 0x49, 0xdb, 0x87) == 0xf1
    ensures MixByte(0x45, 0x39, 0x53, 0x89) == 0x1b && MixByte(0x39, 0x53, 0x89, 0x45) == 0x4b
    ensures MixByte(0x53, 0x89, 0x45, 0x39) == 0x5a && MixByte(0x89, 0x45, 0x39, 0x53) == 0xac
    ensures MixByte(0x7f, 0x02, 0xd2, 0xf1) == 0xdb && MixByte(0x02, 0xd2, 0xf1, 0x7f) == 0xe7
    ensures MixByte(0xd2, 0xf1, 0x7f, 0x02) == 0xca && MixByte(0xf1, 0x7f, 0x02, 0xd2) == 0xa8
    ensures MixByte(0x77, 0xde, 0x96, 0x1a) == 0x1b && MixByte(0xde, 0x96, 0x1a, 0x77) == 0x6b
    ensures MixByte(0x96, 0x1a, 0x77, 0xde) == 0xb0 && MixByte(0x1a, 0x77, 0xde, 0x96) == 0xe5
  {
  }

  lemma State2()
    ensures After(2, [0xaa, 0x8f, 0x5f, 0x03, 0x61, 0xdd, 0xe3, 0xef, 0x82, 0xd2, 0x4a, 0xd2, 0x68, 0x32, 0x46, 0x9a])
  {
    hide Words, Rounds, Sbox, MixByte;
    State1();
    Key2();
    Subs2();
    MoreSubs2();
    Mixes2();
    RoundOn(2, [0xa4, 0x9c, 0x7f, 0xf2, 0x68, 0x9f, 0x35, 0x2b, 0x6b, 0x5b, 0xea, 0x43, 0x02, 0x6a, 0x50, 0x49],
            [0xf2, 0xc2, 0x95, 0xf2], [0x7a, 0x96, 0xb9, 0x43],
            [0x59, 0x35, 0x80, 0x7a], [0x73, 0x59, 0xf6, 0x7f]);
  }

  lemma Subs3()
    ensures Sbox(0xaa) == 0xac && Sbox(0x8f) == 0x73 && Sbox(0x5f) == 0xcf && Sbox(0x03) == 0x7b
    ensures Sbox(0x61) == 0xef && Sbox(0xdd) == 0xc1 && Sbox(0xe3) == 0x11 && Sbox(0xef) == 0xdf
  {
  }

  lemma MoreSubs3()
    ensures Sbox(0x82) == 0x13 && Sbox(0xd2) == 0xb5 && Sbox(0x4a) == 0xd6 && Sbox(0xd2) == 0xb5
    ensures Sbox(0x68) == 0x45 && Sbox(0x32) == 0x23 && Sbox(0x46) == 0x5a && Sbox(0x9a) == 0xb8
  {
  }

  lemma Mixes3()
    ensures MixByte(0xac, 0xc1, 0xd6, 0xb8) == 0x75 && MixByte(0xc1, 0xd6, 0xb8, 0xac) == 0xec
    ensures MixByte(0xd6, 0xb8, 0xac, 0xc1) == 0x09 && MixByte(0xb8, 0xac, 0xc1, 0xd6) == 0x93
    ensures MixByte(0xef, 0xb5, 0x5a, 0x7b) == 0x20 && MixByte(0xb5, 0x5a, 0x7b, 0xef) == 0x0b
    ensures MixByte(0x5a, 0x7b, 0xef, 0xb5) == 0x63 && MixByte(0x7b, 0xef, 0xb5, 0x5a) == 0x33
    ensures MixByte(0x13, 0x23, 0xcf, 0xdf) == 0x53 && MixByte(0x23, 0xcf, 0xdf, 0x13) == 0xc0
    ensures MixByte(0xcf, 0xdf, 0x13, 0x23) == 0xcf && MixByte(0xdf, 0x13, 0x23, 0xcf) == 0x7c
    ensures MixByte(0x45, 0x73, 0x11, 0xb5) == 0xbb && MixByte(0x73, 0x11, 0xb5, 0x45) == 0x25
    ensures MixByte(0x11, 0xb5, 0x45, 0x73) == 0xd0 && MixByte(0xb5, 0x45, 0x73, 0x11) == 0xdc
  {
  }

  lemma State3()
    ensures After(3, [0x48, 0x6c, 0x4e, 0xee, 0x67, 0x1d, 0x9d, 0x0d, 0x4d, 0xe3, 0xb1, 0x38, 0xd6, 0x5f, 0x58, 0xe7])
  {
    hide Words, Rounds, Sbox, MixByte;
    State2();
    Key3();
    Subs3();
    MoreSubs3();
    Mixes3();
    RoundOn(3, [0xaa, 0x8f, 0x5f, 0x03, 0x61, 0xdd, 0xe3, 0xef, 0x82, 0xd2, 0x4a, 0xd2, 0x68, 0x32, 0x46, 0x9a],
            [0x3d, 0x80, 0x47, 0x7d], [0x47, 0x16, 0xfe, 0x3e],
            [0x1e, 0x23, 0x7e, 0x44], [0x6d, 0x7a, 0x88, 0x3b]);
  }

  lemma Subs4()
    ensures Sbox(0x48) == 0x52 && Sbox(0x6c) == 0x50 && Sbox(0x4e) == 0x2f && Sbox(0xee) == 0x28
    ensures Sbox(0x67) == 0x85 && Sbox(0x1d) == 0xa4 && Sbox(0x9d) == 0x5e && Sbox(0x0d) == 0xd7
  {
  }

  lemma MoreSubs4()
    ensures Sbox(0x4d) == 0xe3 && Sbox(0xe3) == 0x11 && Sbox(0xb1) == 0xc8 && Sbox(0x38) == 0x07
    ensures Sbox(0xd6) == 0xf6 && Sbox(0x5f) == 0xcf && Sbox(0x58) == 0x6a && Sbox(0xe7) == 0x94
  {
  }

  lemma Mixes4()
    ensures MixByte(0x52, 0xa4, 0xc8, 0x94) == 0x0f && MixByte(0xa4, 0xc8, 0x94, 0x52) == 0xd6
    ensures MixByte(0xc8, 0x94, 0x52, 0xa4) == 0xda && MixByte(0x94, 0x52, 0xa4, 0xc8) == 0xa9
    ensures MixByte(0x85, 0x11, 0x6a, 0x28) == 0x60 && MixByte(0x11, 0x6a, 0x28, 0x85) == 0x31
    ensures MixByte(0x6a, 0x28, 0x85, 0x11) == 0x38 && MixByte(0x28, 0x85, 0x11, 0x6a) == 0xbf
    ensures MixByte(0xe3, 0xcf, 0x2f, 0xd7) == 0x6f && MixByte(0xcf, 0x2f, 0xd7, 0xe3) == 0xc0
    ensures MixByte(0x2f, 0xd7, 0xe3, 0xcf) == 0x10 && MixByte(0xd7, 0xe3, 0xcf, 0x2f) == 0x6b
    ensures MixByte(0xf6, 0x50, 0x5e, 0x07) == 0x5e && MixByte(0x50, 0x5e, 0x07, 0xf6) == 0xb3
    ensures MixByte(0x5e, 0x07, 0xf6, 0x50) == 0x13 && MixByte(0x07, 0xf6, 0x50, 0x5e) == 0x01
  {
  }

  lemma State4()
    ensures After(4, [0xe0, 0x92, 0x7f, 0xe8, 0xc8, 0x63, 0x63, 0xc0, 0xd9, 0xb1, 0x35, 0x50, 0x85, 0xb8, 0xbe, 0x01])
  {
    hide Words, Rounds, Sbox, MixByte;
    State3();
    Key4();
    Subs4();
    MoreSubs4();
    Mixes4();
    RoundOn(4, [0x48, 0x6c, 0x4e, 0xee, 0x67, 0x1d, 0x9d, 0x0d, 0x4d, 0xe3, 0xb1, 0x38, 0xd6, 0x5f, 0x58, 0xe7],
            [0xef, 0x44, 0xa5, 0x41], [0xa8, 0x52, 0x5b, 0x7f],
            [0xb6, 0x71, 0x25, 0x3b], [0xdb, 0x0b, 0xad, 0x00]);
  }

  lemma Subs5()
    ensures Sbox(0xe0) == 0xe1 && Sbox(0x92) == 0x4f && Sbox(0x7f) == 0xd2 && Sbox(0xe8) == 0x9b
    ensures Sbox(0xc8) == 0xe8 && Sbox(0x63) == 0xfb && Sbox(0x63) == 0xfb && Sbox(0xc0) == 0xba
  {
  }

  lemma MoreSubs5()
    ensures Sbox(0xd9) == 0x35 && Sbox(0xb1) == 0xc8 && Sbox(0x35) == 0x96 && Sbox(0x50) == 0x53
    ensures Sbox(0x85) == 0x97 && Sbox(0xb8) == 0x6c && Sbox(0xbe) == 0xae && Sbox(0x01) == 0x7c
  {
  }

  lemma Mixes5()
    ensures MixByte(0xe1, 0xfb, 0x96, 0x7c) == 0x25 && MixByte(0xfb, 0x96, 0x7c, 0xe1) == 0xd1
    ensures MixByte(0x96, 0x7c, 0xe1, 0xfb) == 0xa9 && MixByte(0x7c, 0xe1, 0xfb, 0x96) == 0xad
    ensures MixByte(0xe8, 0xc8, 0xae, 0x9b) == 0xbd && MixByte(0xc8, 0xae, 0x9b, 0xe8) == 0x11
    ensures MixByte(0xae, 0x9b, 0xe8, 0xc8) == 0xd1 && MixByte(0x9b, 0xe8, 0xc8, 0xae) == 0x68
    ensures MixByte(0x35, 0x6c, 0xd2, 0xba) == 0xb6 && MixByte(0x6c, 0xd2, 0xba, 0x35) == 0x3a
    ensures MixByte(0xd2, 0xba, 0x35, 0x6c) == 0x33 && MixByte(0xba, 0x35, 0x6c, 0xd2) == 0x8e
    ensures MixByte(0x97, 0x4f, 0xfb, 0x53) == 0x4c && MixByte(0x4f, 0xfb, 0x53, 0x97) == 0x4c
    ensures MixByte(0xfb, 0x53, 0x97, 0x4f) == 0xc0 && MixByte(0x53, 0x97, 0x4f, 0xfb) == 0xb0
  {
  }

  lemma State5()
    ensures After(5, [0xf1, 0x00, 0x6f, 0x55, 0xc1, 0x92, 0x4c, 0xef, 0x7c, 0xc8, 0x8b, 0x32, 0x5d, 0xb5, 0xd5, 0x0c])
  {
    hide Words, Rounds, Sbox, MixByte;
    State4();
    Key5();
    Subs5();
    MoreSubs5();
    Mixes5();
    RoundOn(5, [0xe0, 0x92, 0x7f, 0xe8, 0xc8, 0x63, 0x63, 0xc0, 0xd9, 0xb1, 0x35, 0x50, 0x85, 0xb8, 0xbe, 0x01],
            [0xd4, 0xd1, 0xc6, 0xf8], [0x7c, 0x83, 0x9d, 0x87],
            [0xca, 0xf2, 0xb8, 0xbc], [0x11, 0xf9, 0x15, 0xbc]);
  }

  lemma Subs6()
    ensures Sbox(0xf1) == 0xa1 && Sbox(0x00) == 0x63 && Sbox(0x6f) == 0xa8 && Sbox(0x55) == 0xfc
    ensures Sbox(0xc1) == 0x78 && Sbox(0x92) == 0x4f && Sbox(0x4c) == 0x29 && Sbox(0xef) == 0xdf
  {
  }

  lemma MoreSubs6()
    ensures Sbox(0x7c) == 0x10 && Sbox(0xc8) == 0xe8 && Sbox(0x8b) == 0x3d && Sbox(0x32) == 0x23
    ensures Sbox(0x5d) == 0x4c && Sbox(0xb5) == 0xd5 && Sbox(0xd5) == 0x03 && Sbox(0x0c) == 0xfe
  {
  }

  lemma Mixes6()
    ensures MixByte(0xa1, 0x4f, 0x3d, 0xfe) == 0x4b && MixByte(0x4f, 0x3d, 0xfe, 0xa1) == 0x86
    ensures MixByte(0x3d, 0xfe, 0xa1, 0x4f) == 0x8d && MixByte(0xfe, 0xa1, 0x4f, 0x3d) == 0x6d
    ensures MixByte(0x78, 0xe8, 0x03, 0xfc) == 0x2c && MixByte(0xe8, 0x03, 0xfc, 0x78) == 0x4a
    ensures MixByte(0x03, 0xfc, 0x78, 0xe8) == 0x89 && MixByte(0xfc, 0x78, 0xe8, 0x03) == 0x80
    ensures MixByte(0x10, 0xd5, 0xa8, 0xdf) == 0x33 && MixByte(0xd5, 0xa8, 0xdf, 0x10) == 0x9d
    ensures MixByte(0xa8, 0xdf, 0x10, 0xd5) == 0xf4 && MixByte(0xdf, 0x10, 0xd5, 0xa8) == 0xe8
    ensures MixByte(0x4c, 0x63, 0x29, 0x23) == 0x37 && MixByte(0x63, 0x29, 0x23, 0x4c) == 0xd2
    ensures MixByte(0x29, 0x23, 0x4c, 0x63) == 0x18 && MixByte(0x23, 0x4c, 0x63, 0x29) == 0xd8
  {
  }

  lemma State6()
    ensures After(6, [0x26, 0x0e, 0x2e, 0x17, 0x3d, 0x41, 0xb7, 0x7d, 0xe8, 0x64, 0x72, 0xa9, 0xfd, 0xd2, 0x8b, 0x25])
  {
    hide Words, Rounds, Sbox, MixByte;
    State5();
    Key6();
    Subs6();
    MoreSubs6();
    Mixes6();
    RoundOn(6, [0xf1, 0x00, 0x6f, 0x55, 0xc1, 0x92, 0x4c, 0xef, 0x7c, 0xc8, 0x8b, 0x32, 0x5d, 0xb5, 0xd5, 0x0c],
            [0x6d, 0x88, 0xa3, 0x7a], [0x11, 0x0b, 0x3e, 0xfd],
            [0xdb, 0xf9, 0x86, 0x41], [0xca, 0x00, 0x93, 0xfd]);
  }

  lemma Subs7()
    ensures Sbox(0x26) == 0xf7 && Sbox(0x0e) == 0xab && Sbox(0x2e) == 0x31 && Sbox(0x17) == 0xf0
    ensures Sbox(0x3d) == 0x27 && Sbox(0x41) == 0x83 && Sbox(0xb7) == 0xa9 && Sbox(0x7d) == 0xff
  {
  }

  lemma MoreSubs7()
    ensures Sbox(0xe8) == 0x9b && Sbox(0x64) == 0x43 && Sbox(0x72) == 0x40 && Sbox(0xa9) == 0xd3
    ensures Sbox(0xfd) == 0x54 && Sbox(0xd2) == 0xb5 && Sbox(0x8b) == 0x3d && Sbox(0x25) == 0x3f
  {
  }

  lemma Mixes7()
    ensures MixByte(0xf7, 0x83, 0x40, 0x3f) == 0x14 && MixByte(0x83, 0x40, 0x3f, 0xf7) == 0x15
    ensures MixByte(0x40, 0x3f, 0xf7, 0x83) == 0xb5 && MixByte(0x3f, 0xf7, 0x83, 0x40) == 0xbf
    ensures MixByte(0x27, 0x43, 0x3d, 0xf0) == 0x46 && MixByte(0x43, 0x3d, 0xf0, 0x27) == 0x16
    ensures MixByte(0x3d, 0xf0, 0x27, 0x43) == 0x15 && MixByte(0xf0, 0x27, 0x43, 0x3d) == 0xec
    ensures MixByte(0x9b, 0xb5, 0x31, 0xff) == 0x27 && MixByte(0xb5, 0x31, 0xff, 0x9b) == 0x46
    ensures MixByte(0x31, 0xff, 0x9b, 0xb5) == 0x56 && MixByte(0xff, 0x9b, 0xb5, 0x31) == 0xd7
    ensures MixByte(0x54, 0xab, 0xa9, 0xd3) == 0x34 && MixByte(0xab, 0xa9, 0xd3, 0x54) == 0x2a
    ensures MixByte(0xa9, 0xd3, 0x54, 0xab) == 0xd8 && MixByte(0xd3, 0x54, 0xab, 0xa9) == 0x43
  {
  }

  lemma State7()
    ensures After(7, [0x5a, 0x41, 0x42, 0xb1, 0x19, 0x49, 0xdc, 0x1f, 0xa3, 0xe0, 0x19, 0x65, 0x7a, 0x8c, 0x04, 0x0c])
  {
    hide Words, Rounds, Sbox, MixByte;
    State6();
    Key7();
    Subs7();
    MoreSubs7();
    Mixes7();
    RoundOn(7, [0x26, 0x0e, 0x2e, 0x17, 0x3d, 0x41, 0xb7, 0x7d, 0xe8, 0x64, 0x72, 0xa9, 0xfd, 0xd2, 0x8b, 0x25],
            [0x4e, 0x54, 0xf7, 0x0e], [0x5f, 0x5f, 0xc9, 0xf3],
            [0x84, 0xa6, 0x4f, 0xb2], [0x4e, 0xa6, 0xdc, 0x4f]);
  }

  lemma Subs8()
    ensures Sbox(0x5a) == 0xbe && Sbox(0x41) == 0x83 && Sbox(0x42) == 0x2c && Sbox(0xb1) == 0xc8
    ensures Sbox(0x19) == 0xd4 && Sbox(0x49) == 0x3b && Sbox(0xdc) == 0x86 && Sbox(0x1f) == 0xc0
  {
  }

  lemma MoreSubs8()
    ensures Sbox(0xa3) == 0x0a && Sbox(0xe0) == 0xe1 && Sbox(0x19) == 0xd4 && Sbox(0x65) == 0x4d
    ensures Sbox(0x7a) == 0xda && Sbox(0x8c) == 0x64 && Sbox(0x04) == 0xf2 && Sbox(0x0c) == 0xfe
  {
  }

  lemma Mixes8()
    ensures MixByte(0xbe, 0x3b, 0xd4, 0xfe) == 0x00 && MixByte(0x3b, 0xd4, 0xfe, 0xbe) == 0x51
    ensures MixByte(0xd4, 0xfe, 0xbe, 0x3b) == 0x2f && MixByte(0xfe, 0xbe, 0x3b, 0xd4) == 0xd1
    ensures MixByte(0xd4, 0xe1, 0xf2, 0xc8) == 0xb1 && MixByte(0xe1, 0xf2, 0xc8, 0xd4) == 0xc8
    ensures MixByte(0xf2, 0xc8, 0xd4, 0xe1) == 0x89 && MixByte(0xc8, 0xd4, 0xe1, 0xf2) == 0xff
    ensures MixByte(0x0a, 0x64, 0x2c, 0xc0) == 0x54 && MixByte(0x64, 0x2c, 0xc0, 0x0a) == 0x76
    ensures MixByte(0x2c, 0xc0, 0x0a, 0x64) == 0x6d && MixByte(0xc0, 0x0a, 0x64, 0x2c) == 0xcd
    ensures MixByte(0xda, 0x83, 0x86, 0x4d) == 0xfa && MixByte(0x83, 0x86, 0x4d, 0xda) == 0x1b
    ensures MixByte(0x86, 0x4d, 0xda, 0x83) == 0x99 && MixByte(0x4d, 0xda, 0x83, 0x86) == 0xea
  {
  }

  lemma State8()
    ensures After(8, [0xea, 0x83, 0x5c, 0xf0, 0x04, 0x45, 0x33, 0x2d, 0x65, 0x5d, 0x98, 0xad, 0x85, 0x96, 0xb0, 0xc5])
  {
    hide Words, Rounds, Sbox, MixByte;
    State7();
    Key8();
    Subs8();
    MoreSubs8();
    Mixes8();
    RoundOn(8, [0x5a, 0x41, 0x42, 0xb1, 0x19, 0x49, 0xdc, 0x1f, 0xa3, 0xe0, 0x19, 0x65, 0x7a, 0x8c, 0x04, 0x0c],
            [0xea, 0xd2, 0x73, 0x21], [0xb5, 0x8d, 0xba, 0xd2],
            [0x31, 0x2b, 0xf5, 0x60], [0x7f, 0x8d, 0x29, 0x2f]);
  }

  lemma Subs9()
    ensures Sbox(0xea) == 0x87 && Sbox(0x83) == 0xec && Sbox(0x5c) == 0x4a && Sbox(0xf0) == 0x8c
    ensures Sbox(0x04) == 0xf2 && Sbox(0x45) == 0x6e && Sbox(0x33) == 0xc3 && Sbox(0x2d) == 0xd8
  {
  }

  lemma MoreSubs9()
    ensures Sbox(0x65) == 0x4d && Sbox(0x5d) == 0x4c && Sbox(0x98) == 0x46 && Sbox(0xad) == 0x95
    ensures Sbox(0x85) == 0x97 && Sbox(0x96) == 0x90 && Sbox(0xb0) == 0xe7 && Sbox(0xc5) == 0xa6
  {
  }

  lemma Mixes9()
    ensures MixByte(0x87, 0x6e, 0x46, 0xa6) == 0x47 && MixByte(0x6e, 0x46, 0xa6, 0x87) == 0x37
    ensures MixByte(0x46, 0xa6, 0x87, 0x6e) == 0x94 && MixByte(0xa6, 0x87, 0x6e, 0x46) == 0xed
    ensures MixByte(0xf2, 0x4c, 0xe7, 0x8c) == 0x40 && MixByte(0x4c, 0xe7, 0x8c, 0xf2) == 0xd4
    ensures MixByte(0xe7, 0x8c, 0xf2, 0x4c) == 0xe4 && MixByte(0x8c, 0xf2, 0x4c, 0xe7) == 0xa5
    ensures MixByte(0x4d, 0x90, 0x4a, 0xd8) == 0xa3 && MixByte(0x90, 0x4a, 0xd8, 0x4d) == 0x70
    ensures MixByte(0x4a, 0xd8, 0x4d, 0x90) == 0x3a && MixByte(0xd8, 0x4d, 0x90, 0x4a) == 0xa6
    ensures MixByte(0x97, 0xec, 0xc3, 0x95) == 0x4c && MixByte(0xec, 0xc3, 0x95, 0x97) == 0x9f
    ensures MixByte(0xc3, 0x95, 0x97, 0xec) == 0x42 && MixByte(0x95, 0x97, 0xec, 0xc3) == 0xbc
  {
  }

  lemma State9()
    ensures After(9, [0xeb, 0x40, 0xf2, 0x1e, 0x59, 0x2e, 0x38, 0x84, 0x8b, 0xa1, 0x13, 0xe7, 0x1b, 0xc3, 0x42, 0xd2])
  {
    hide Words, Rounds, Sbox, MixByte;
    State8();
    Key9();
    Subs9();
    MoreSubs9();
    Mixes9();
    RoundOn(9, [0xea, 0x83, 0x5c, 0xf0, 0x04, 0x45, 0x33, 0x2d, 0x65, 0x5d, 0x98, 0xad, 0x85, 0x96, 0xb0, 0xc5],
            [0xac, 0x77, 0x66, 0xf3], [0x19, 0xfa, 0xdc, 0x21],
            [0x28, 0xd1, 0x29, 0x41], [0x57, 0x5c, 0x00, 0x6e]);
  }

  lemma Subs10()
    ensures Sbox(0xeb) == 0xe9 && Sbox(0x40) == 0x09 && Sbox(0xf2) == 0x89 && Sbox(0x1e) == 0x72
    ensures Sbox(0x59) == 0xcb && Sbox(0x2e) == 0x31 && Sbox(0x38) == 0x07 && Sbox(0x84) == 0x5f
  {
  }

  lemma MoreSubs10()
    ensures Sbox(0x8b) == 0x3d && Sbox(0xa1) == 0x32 && Sbox(0x13) == 0x7d && Sbox(0xe7) == 0x94
    ensures Sbox(0x1b) == 0xaf && Sbox(0xc3) == 0x2e && Sbox(0x42) == 0x2c && Sbox(0xd2) == 0xb5
  {
  }

  lemma Sums10()
    ensures Other([0xe9, 0x31, 0x7d, 0xb5], [0xd0, 0x14, 0xf9, 0xa8]) == [0x39, 0x25, 0x84, 0x1d]
    ensures Other([0xcb, 0x32, 0x2c, 0x72], [0xc9, 0xee, 0x25, 0x89]) == [0x02, 0xdc, 0x09, 0xfb]
    ensures Other([0x3d, 0x2e, 0x89, 0x5f], [0xe1, 0x3f, 0x0c, 0xc8]) == [0xdc, 0x11, 0x85, 0x97]
    ensures Other([0xaf, 0x09, 0x07, 0x94], [0xb6, 0x63, 0x0c, 0xa6]) == [0x19, 0x6a, 0x0b, 0x32]
  {
  }

  /** FIPS 197, appendix B: this key takes this block to this one. */
  lemma CipherExample()
    ensures Cipher(KEY, INPUT) == [0x39, 0x25, 0x84, 0x1d, 0x02, 0xdc, 0x09, 0xfb, 0xdc, 0x11, 0x85, 0x97, 0x19, 0x6a, 0x0b, 0x32]
  {
    hide Words, Sbox, Other, Cipher, Rounds, RoundKey, SubBytes, ShiftRows, Xor;
    State9();
    Key10();
    Subs10();
    MoreSubs10();
    Sums10();
    LastRound(KEY, INPUT, 9);
    RoundKeyIs(10, [0xd0, 0x14, 0xf9, 0xa8], [0xc9, 0xee, 0x25, 0x89], [0xe1, 0x3f, 0x0c, 0xc8], [0xb6, 0x63, 0x0c, 0xa6]);
    LastQuarters([0xeb, 0x40, 0xf2, 0x1e, 0x59, 0x2e, 0x38, 0x84, 0x8b, 0xa1, 0x13, 0xe7, 0x1b, 0xc3, 0x42, 0xd2],
                 [0xd0, 0x14, 0xf9, 0xa8], [0xc9, 0xee, 0x25, 0x89], [0xe1, 0x3f, 0x0c, 0xc8], [0xb6, 0x63, 0x0c, 0xa6]);
  }
}
