/** A worked example of RFC 6070, "password" and "salt" with two iterations: it goes through SHA-1, HMAC and PBKDF2. */
module Pbkdf2Example {
  import opened Bytes
  import opened Sha1Spec
  import opened KeyDerivation

  // Eight rounds, and sixteen words of the schedule, at a time.

  type Eight = s: seq<Word> | |s| == 8 witness seq(8, _ => 0)

  function EightRounds(r: Registers, t: nat, w: Eight): Registers {
    var r1 := Next(r, t + 0, w[0]);
    var r2 := Next(r1, t + 1, w[1]);
    var r3 := Next(r2, t + 2, w[2]);
    var r4 := Next(r3, t + 3, w[3]);
    var r5 := Next(r4, t + 4, w[4]);
    var r6 := Next(r5, t + 5, w[5]);
    var r7 := Next(r6, t + 6, w[6]);
    Next(r7, t + 7, w[7])
  }

  function Scheduled(a: Word, b: Word, c: Word, d: Word): Word {
    Rotl1(a ^ b ^ c ^ d)
  }

  function NextWords(a: Eight, b: Eight): Eight {
    hide Scheduled;
    var v16 := Scheduled(b[5], b[0], a[2], a[0]);
    var v17 := Scheduled(b[6], b[1], a[3], a[1]);
    var v18 := Scheduled(b[7], b[2], a[4], a[2]);
    var v19 := Scheduled(v16, b[3], a[5], a[3]);
    var v20 := Scheduled(v17, b[4], a[6], a[4]);
    var v21 := Scheduled(v18, b[5], a[7], a[5]);
    var v22 := Scheduled(v19, b[6], b[0], a[6]);
    var v23 := Scheduled(v20, b[7], b[1], a[7]);
    [v16, v17, v18, v19, v20, v21, v22, v23]
  }

  /** These words of the schedule, from t on. */
  ghost predicate Listed(m: Words, t: nat, w: Eight) {
    hide W;
    forall i :: 0 <= i < 8 ==> W(m, t + i) == w[i]
  }

  lemma OneWord(m: Words, t: nat)
    requires t >= 16
    ensures W(m, t) == Scheduled(W(m, t - 3), W(m, t - 8), W(m, t - 14), W(m, t - 16))
  {
    hide Rotl1;
  }

  lemma WordsOn(m: Words, t: nat, a: Eight, b: Eight)
    requires Listed(m, t, a) && Listed(m, t + 8, b)
    ensures Listed(m, t + 16, NextWords(a, b))
  {
    hide W, Scheduled;
    OneWord(m, t + 16);
    OneWord(m, t + 17);
    OneWord(m, t + 18);
    OneWord(m, t + 19);
    OneWord(m, t + 20);
    OneWord(m, t + 21);
    OneWord(m, t + 22);
    OneWord(m, t + 23);
  }

  lemma OneRound(h: Registers, m: Words, t: nat)
    ensures Rounds(h, m, t + 1) == Next(Rounds(h, m, t), t, W(m, t))
  {
    hide Next, W;
  }

  lemma RoundsOn(h: Registers, m: Words, t: nat, r: Registers, w: Eight)
    requires Rounds(h, m, t) == r && Listed(m, t, w)
    ensures Rounds(h, m, t + 8) == EightRounds(r, t, w)
  {
    hide Rounds, Next, W;
    OneRound(h, m, t);
    OneRound(h, m, t + 1);
    OneRound(h, m, t + 2);
    OneRound(h, m, t + 3);
    OneRound(h, m, t + 4);
    OneRound(h, m, t + 5);
    OneRound(h, m, t + 6);
    OneRound(h, m, t + 7);
  }

  lemma FirstWords(m: Words)
    ensures Listed(m, 0, m[..8]) && Listed(m, 8, m[8..])
  {
  }

  // The padded key of the inner hash.

  function InnerKeyWords(): Words {
    [0x46574545, 0x41594452, 0x36363636, 0x36363636, 0x36363636, 0x36363636, 0x36363636, 0x36363636,
     0x36363636, 0x36363636, 0x36363636, 0x36363636, 0x36363636, 0x36363636, 0x36363636, 0x36363636]
  }

  lemma InnerKeySchedule(m: Words)
    requires m == InnerKeyWords()
    ensures Listed(m, 0, [0x46574545, 0x41594452, 0x36363636, 0x36363636, 0x36363636, 0x36363636, 0x36363636, 0x36363636])
    ensures Listed(m, 8, [0x36363636, 0x36363636, 0x36363636, 0x36363636, 0x36363636, 0x36363636, 0x36363636, 0x36363636])
    ensures Listed(m, 16, [0xe0c2e6e6, 0xeedee4c8, 0x00000000, 0xade9a1a1, 0xb1d1a5fd, 0x6c6c6c6c, 0x37bf2f2f, 0x0fcf2797])
    ensures Listed(m, 24, [0x195d1515, 0xb2c397cf, 0x1f9e4f2e, 0x69696969, 0x06246464, 0xe7e44684, 0x10452d2d, 0xa207221b])
    ensures Listed(m, 32, [0x3cf76aee, 0xc363ff17, 0x18919190, 0x28379c95, 0x86522342, 0x39ad39df, 0x2d211704, 0x32b36203])
    ensures Listed(m, 40, [0x07321214, 0x6bd02d6a, 0x6731b1b2, 0x431142d9, 0xf7c68ec3, 0x36ffd9e4, 0x8504243c, 0x48226399])
    ensures Listed(m, 48, [0x2b56611c, 0x0b00d5a8, 0x63a0c1f3, 0xf3bb0d1e, 0xaf6ade5a, 0xbc828796, 0xb9585864, 0x7c57e555])
    ensures Listed(m, 56, [0xefae8a59, 0x3533c4ff, 0x1e0037af, 0xd3f638f4, 0xd13760b5, 0xb8be1489, 0x89f84b61, 0xdc8467a3])
    ensures Listed(m, 64, [0x3fcc7c7e, 0x88e0ae50, 0x1c9c9f4a, 0x46079c05, 0x9fca91b6, 0xc9efd200, 0x32120ab3, 0x1455af7e])
    ensures Listed(m, 72, [0x0f1a2710, 0xb86eb1d0, 0x8ffcce5d, 0x44ab2ed0, 0xfed61764, 0x4452deee, 0x811a26f9, 0x7dcee3d3])
  {
    hide Listed;
    FirstWords(m);
    assert m[..8] == [0x46574545, 0x41594452, 0x36363636, 0x36363636, 0x36363636, 0x36363636, 0x36363636, 0x36363636]
      && m[8..] == [0x36363636, 0x36363636, 0x36363636, 0x36363636, 0x36363636, 0x36363636, 0x36363636, 0x36363636];
    WordsOn(m, 0, [0x46574545, 0x41594452, 0x36363636, 0x36363636, 0x36363636, 0x36363636, 0x36363636, 0x36363636],
            [0x36363636, 0x36363636, 0x36363636, 0x36363636, 0x36363636, 0x36363636, 0x36363636, 0x36363636]);
    WordsOn(m, 8, [0x36363636, 0x36363636, 0x36363636, 0x36363636, 0x36363636, 0x36363636, 0x36363636, 0x36363636],
            [0xe0c2e6e6, 0xeedee4c8, 0x00000000, 0xade9a1a1, 0xb1d1a5fd, 0x6c6c6c6c, 0x37bf2f2f, 0x0fcf2797]);
    WordsOn(m, 16, [0xe0c2e6e6, 0xeedee4c8, 0x00000000, 0xade9a1a1, 0xb1d1a5fd, 0x6c6c6c6c, 0x37bf2f2f, 0x0fcf2797],
            [0x195d1515, 0xb2c397cf, 0x1f9e4f2e, 0x69696969, 0x06246464, 0xe7e44684, 0x10452d2d, 0xa207221b]);
    WordsOn(m, 24, [0x195d1515, 0xb2c397cf, 0x1f9e4f2e, 0x69696969, 0x06246464, 0xe7e44684, 0x10452d2d, 0xa207221b],
            [0x3cf76aee, 0xc363ff17, 0x18919190, 0x28379c95, 0x86522342, 0x39ad39df, 0x2d211704, 0x32b36203]);
    WordsOn(m, 32, [0x3cf76aee, 0xc363ff17, 0x18919190, 0x28379c95, 0x86522342, 0x39ad39df, 0x2d211704, 0x32b36203],
            [0x07321214, 0x6bd02d6a, 0x6731b1b2, 0x431142d9, 0xf7c68ec3, 0x36ffd9e4, 0x8504243c, 0x48226399]);
    WordsOn(m, 40, [0x07321214, 0x6bd02d6a, 0x6731b1b2, 0x431142d9, 0xf7c68ec3, 0x36ffd9e4, 0x8504243c, 0x48226399],
            [0x2b56611c, 0x0b00d5a8, 0x63a0c1f3, 0xf3bb0d1e, 0xaf6ade5a, 0xbc828796, 0xb9585864, 0x7c57e555]);
    WordsOn(m, 48, [0x2b56611c, 0x0b00d5a8, 0x63a0c1f3, 0xf3bb0d1e, 0xaf6ade5a, 0xbc828796, 0xb9585864, 0x7c57e555],
            [0xefae8a59, 0x3533c4ff, 0x1e0037af, 0xd3f638f4, 0xd13760b5, 0xb8be1489, 0x89f84b61, 0xdc8467a3]);
    WordsOn(m, 56, [0xefae8a59, 0x3533c4ff, 0x1e0037af, 0xd3f638f4, 0xd13760b5, 0xb8be1489, 0x89f84b61, 0xdc8467a3],
            [0x3fcc7c7e, 0x88e0ae50, 0x1c9c9f4a, 0x46079c05, 0x9fca91b6, 0xc9efd200, 0x32120ab3, 0x1455af7e]);
  }

  lemma InnerKeyHalf(h: Registers, m: Words)
    requires h == Registers(0x67452301, 0xefcdab89, 0x98badcfe, 0x10325476, 0xc3d2e1f0) && m == InnerKeyWords()
    ensures Rounds(h, m, 40) == Registers(0xf12ed9d2, 0xb42225ef, 0x013c6ac9, 0x07b04acd, 0xf0dc9ed6)
  {
    hide Rounds, Listed, InnerKeyWords;
    InnerKeySchedule(m);
    assert Rounds(h, m, 0) == h by { NoRounds(h, m); }
    RoundsOn(h, m, 0, Registers(0x67452301, 0xefcdab89, 0x98badcfe, 0x10325476, 0xc3d2e1f0),
             [0x46574545, 0x41594452, 0x36363636, 0x36363636, 0x36363636, 0x36363636, 0x36363636, 0x36363636]);
    RoundsOn(h, m, 8, Registers(0xd6d7d785, 0x332b2181, 0x76cb1251, 0xb3f19579, 0x729774d0),
             [0x36363636, 0x36363636, 0x36363636, 0x36363636, 0x36363636, 0x36363636, 0x36363636, 0x36363636]);
    RoundsOn(h, m, 16, Registers(0x30203740, 0x77a6a729, 0x23b157f8, 0x7efc79f6, 0x5aa5636d),
             [0xe0c2e6e6, 0xeedee4c8, 0x00000000, 0xade9a1a1, 0xb1d1a5fd, 0x6c6c6c6c, 0x37bf2f2f, 0x0fcf2797]);
    RoundsOn(h, m, 24, Registers(0x4c7bae72, 0x6fcf137f, 0x1854bec2, 0x4206278a, 0x018fd5b4),
             [0x195d1515, 0xb2c397cf, 0x1f9e4f2e, 0x69696969, 0x06246464, 0xe7e44684, 0x10452d2d, 0xa207221b]);
    RoundsOn(h, m, 32, Registers(0x274b7df6, 0x9641f59a, 0x1ce9e0cb, 0x5035b993, 0x4f25e23b),
             [0x3cf76aee, 0xc363ff17, 0x18919190, 0x28379c95, 0x86522342, 0x39ad39df, 0x2d211704, 0x32b36203]);
  }

  lemma InnerKeyRounds(h: Registers, m: Words)
    requires h == Registers(0x67452301, 0xefcdab89, 0x98badcfe, 0x10325476, 0xc3d2e1f0) && m == InnerKeyWords()
    ensures Sum(h, Rounds(h, m, 80)) == Registers(0x084eb10f, 0x7f3bc5b8, 0x5b6b0b41, 0x4ed50043, 0xffe71f45)
  {
    hide Rounds, Listed, InnerKeyWords;
    InnerKeySchedule(m);
    InnerKeyHalf(h, m);
    RoundsOn(h, m, 40, Registers(0xf12ed9d2, 0xb42225ef, 0x013c6ac9, 0x07b04acd, 0xf0dc9ed6),
             [0x07321214, 0x6bd02d6a, 0x6731b1b2, 0x431142d9, 0xf7c68ec3, 0x36ffd9e4, 0x8504243c, 0x48226399]);
    RoundsOn(h, m, 48, Registers(0xc5b16d8b, 0x7a5313fa, 0x9036802d, 0x7204ddbc, 0x22f0c9c1),
             [0x2b56611c, 0x0b00d5a8, 0x63a0c1f3, 0xf3bb0d1e, 0xaf6ade5a, 0xbc828796, 0xb9585864, 0x7c57e555]);
    RoundsOn(h, m, 56, Registers(0xbc8cc18b, 0x3967c52a, 0x940f04c4, 0x609e523e, 0x5d02390f),
             [0xefae8a59, 0x3533c4ff, 0x1e0037af, 0xd3f638f4, 0xd13760b5, 0xb8be1489, 0x89f84b61, 0xdc8467a3]);
    RoundsOn(h, m, 64, Registers(0xefd0d92a, 0x15742eef, 0x9679c534, 0x640a68e4, 0xd7840258),
             [0x3fcc7c7e, 0x88e0ae50, 0x1c9c9f4a, 0x46079c05, 0x9fca91b6, 0xc9efd200, 0x32120ab3, 0x1455af7e]);
    RoundsOn(h, m, 72, Registers(0x3bd6f620, 0x37f41c5b, 0xae043e8a, 0x759f4641, 0x15ab100e),
             [0x0f1a2710, 0xb86eb1d0, 0x8ffcce5d, 0x44ab2ed0, 0xfed61764, 0x4452deee, 0x811a26f9, 0x7dcee3d3]);
  }

  // The padded key of the outer hash.

  function OuterKeyWords(): Words {
    [0x2c3d2f2f, 0x2b332e38, 0x5c5c5c5c, 0x5c5c5c5c, 0x5c5c5c5c, 0x5c5c5c5c, 0x5c5c5c5c, 0x5c5c5c5c,
     0x5c5c5c5c, 0x5c5c5c5c, 0x5c5c5c5c, 0x5c5c5c5c, 0x5c5c5c5c, 0x5c5c5c5c, 0x5c5c5c5c, 0x5c5c5c5c]
  }

  lemma OuterKeySchedule(m: Words)
    requires m == OuterKeyWords()
    ensures Listed(m, 0, [0x2c3d2f2f, 0x2b332e38, 0x5c5c5c5c, 0x5c5c5c5c, 0x5c5c5c5c, 0x5c5c5c5c, 0x5c5c5c5c, 0x5c5c5c5c])
    ensures Listed(m, 8, [0x5c5c5c5c, 0x5c5c5c5c, 0x5c5c5c5c, 0x5c5c5c5c, 0x5c5c5c5c, 0x5c5c5c5c, 0x5c5c5c5c, 0x5c5c5c5c])
    ensures Listed(m, 16, [0xe0c2e6e6, 0xeedee4c8, 0x00000000, 0x793d7575, 0x65057129, 0xb8b8b8b8, 0x4ac25252, 0x72b25aea])
    ensures Listed(m, 24, [0xb0f4bcbc, 0x48396d35, 0xe564b5d4, 0x93939393, 0x5a783838, 0xbbb81ad8, 0xcb9ef6f6, 0x3491b48d])
    ensures Listed(m, 32, [0xd71c8105, 0x288814fc, 0x69e0e0e1, 0x0a15beb7, 0xba6e1f7e, 0x30a430d6, 0x777b4d5e, 0x68e93859])
    ensures Listed(m, 40, [0x64517177, 0x08b34e09, 0x7c2aaaa9, 0x8cde8d16, 0x46773f72, 0x874e6855, 0xce4f6f77, 0x650f4eb4])
    ensures Listed(m, 48, [0xbbc6f18c, 0xc8c3166b, 0x95563705, 0x1b53e5f6, 0x8742f672, 0x94aaafbe, 0x8c6d6d51, 0x042f9d2d])
    ensures Listed(m, 56, [0x6e2f0bd8, 0x8187704b, 0x56487fe7, 0xfdd816da, 0x1dfbac79, 0x4147ed70, 0x0879cae0, 0x6830d317])
    ensures Listed(m, 64, [0x03f04042, 0xb4dc926c, 0x58d8db0e, 0xe3a239a0, 0x44114a6d, 0x123409db, 0x13332b92, 0x5312e839])
    ensures Listed(m, 72, [0x53467b4c, 0xb761bedf, 0x80f3c152, 0x18f7728c, 0xcde52457, 0x7761eddd, 0x009ba778, 0x84371a2a])
  {
    hide Listed;
    FirstWords(m);
    assert m[..8] == [0x2c3d2f2f, 0x2b332e38, 0x5c5c5c5c, 0x5c5c5c5c, 0x5c5c5c5c, 0x5c5c5c5c, 0x5c5c5c5c, 0x5c5c5c5c]
      && m[8..] == [0x5c5c5c5c, 0x5c5c5c5c, 0x5c5c5c5c, 0x5c5c5c5c, 0x5c5c5c5c, 0x5c5c5c5c, 0x5c5c5c5c, 0x5c5c5c5c];
    WordsOn(m, 0, [0x2c3d2f2f, 0x2b332e38, 0x5c5c5c5c, 0x5c5c5c5c, 0x5c5c5c5c, 0x5c5c5c5c, 0x5c5c5c5c, 0x5c5c5c5c],
            [0x5c5c5c5c, 0x5c5c5c5c, 0x5c5c5c5c, 0x5c5c5c5c, 0x5c5c5c5c, 0x5c5c5c5c, 0x5c5c5c5c, 0x5c5c5c5c]);
    WordsOn(m, 8, [0x5c5c5c5c, 0x5c5c5c5c, 0x5c5c5c5c, 0x5c5c5c5c, 0x5c5c5c5c, 0x5c5c5c5c, 0x5c5c5c5c, 0x5c5c5c5c],
            [0xe0c2e6e6, 0xeedee4c8, 0x00000000, 0x793d7575, 0x65057129, 0xb8b8b8b8, 0x4ac25252, 0x72b25aea]);
    WordsOn(m, 16, [0xe0c2e6e6, 0xeedee4c8, 0x00000000, 0x793d7575, 0x65057129, 0xb8b8b8b8, 0x4ac25252, 0x72b25aea],
            [0xb0f4bcbc, 0x48396d35, 0xe564b5d4, 0x93939393, 0x5a783838, 0xbbb81ad8, 0xcb9ef6f6, 0x3491b48d]);
    WordsOn(m, 24, [0xb0f4bcbc, 0x48396d35, 0xe564b5d4, 0x93939393, 0x5a783838, 0xbbb81ad8, 0xcb9ef6f6, 0x3491b48d],
            [0xd71c8105, 0x288814fc, 0x69e0e0e1, 0x0a15beb7, 0xba6e1f7e, 0x30a430d6, 0x777b4d5e, 0x68e93859]);
    WordsOn(m, 32, [0xd71c8105, 0x288814fc, 0x69e0e0e1, 0x0a15beb7, 0xba6e1f7e, 0x30a430d6, 0x777b4d5e, 0x68e93859],
            [0x64517177, 0x08b34e09, 0x7c2aaaa9, 0x8cde8d16, 0x46773f72, 0x874e6855, 0xce4f6f77, 0x650f4eb4]);
    WordsOn(m, 40, [0x64517177, 0x08b34e09, 0x7c2aaaa9, 0x8cde8d16, 0x46773f72, 0x874e6855, 0xce4f6f77, 0x650f4eb4],
            [0xbbc6f18c, 0xc8c3166b, 0x95563705, 0x1b53e5f6, 0x8742f672, 0x94aaafbe, 0x8c6d6d51, 0x042f9d2d]);
    WordsOn(m, 48, [0xbbc6f18c, 0xc8c3166b, 0x95563705, 0x1b53e5f6, 0x8742f672, 0x94aaafbe, 0x8c6d6d51, 0x042f9d2d],
            [0x6e2f0bd8, 0x8187704b, 0x56487fe7, 0xfdd816da, 0x1dfbac79, 0x4147ed70, 0x0879cae0, 0x6830d317]);
    WordsOn(m, 56, [0x6e2f0bd8, 0x8187704b, 0x56487fe7, 0xfdd816da, 0x1dfbac79, 0x4147ed70, 0x0879cae0, 0x6830d317],
            [0x03f04042, 0xb4dc926c, 0x58d8db0e, 0xe3a239a0, 0x44114a6d, 0x123409db, 0x13332b92, 0x5312e839]);
  }

  lemma OuterKeyHalf(h: Registers, m: Words)
    requires h == Registers(0x67452301, 0xefcdab89, 0x98badcfe, 0x10325476, 0xc3d2e1f0) && m == OuterKeyWords()
    ensures Rounds(h, m, 40) == Registers(0xdcde6d3e, 0xa396482d, 0x43c787d3, 0xefcfef24, 0x7463fdd2)
  {
    hide Rounds, Listed, OuterKeyWords;
    OuterKeySchedule(m);
    assert Rounds(h, m, 0) == h by { NoRounds(h, m); }
    RoundsOn(h, m, 0, Registers(0x67452301, 0xefcdab89, 0x98badcfe, 0x10325476, 0xc3d2e1f0),
             [0x2c3d2f2f, 0x2b332e38, 0x5c5c5c5c, 0x5c5c5c5c, 0x5c5c5c5c, 0x5c5c5c5c, 0x5c5c5c5c, 0x5c5c5c5c]);
    RoundsOn(h, m, 8, Registers(0x320ed220, 0x99e2b3ee, 0x71c6e4ab, 0xe3767269, 0x0b8c6a5a),
             [0x5c5c5c5c, 0x5c5c5c5c, 0x5c5c5c5c, 0x5c5c5c5c, 0x5c5c5c5c, 0x5c5c5c5c, 0x5c5c5c5c, 0x5c5c5c5c]);
    RoundsOn(h, m, 16, Registers(0x9a11a1fe, 0x2460ae33, 0xfae40061, 0x584ce6df, 0x7d1703fb),
             [0xe0c2e6e6, 0xeedee4c8, 0x00000000, 0x793d7575, 0x65057129, 0xb8b8b8b8, 0x4ac25252, 0x72b25aea]);
    RoundsOn(h, m, 24, Registers(0xc812661d, 0x81b6bbd9, 0xa38302e8, 0x83bc539b, 0x50cb226c),
             [0xb0f4bcbc, 0x48396d35, 0xe564b5d4, 0x93939393, 0x5a783838, 0xbbb81ad8, 0xcb9ef6f6, 0x3491b48d]);
    RoundsOn(h, m, 32, Registers(0xdc00b79a, 0x0a2d37e7, 0x4704f610, 0x1c92b95a, 0xcc1b1f3d),
             [0xd71c8105, 0x288814fc, 0x69e0e0e1, 0x0a15beb7, 0xba6e1f7e, 0x30a430d6, 0x777b4d5e, 0x68e93859]);
  }

  lemma OuterKeyRounds(h: Registers, m: Words)
    requires h == Registers(0x67452301, 0xefcdab89, 0x98badcfe, 0x10325476, 0xc3d2e1f0) && m == OuterKeyWords()
    ensures Sum(h, Rounds(h, m, 80)) == Registers(0xf0bb8fe5, 0xb5a3bda6, 0x9e9ead99, 0xab1f903a, 0x885e1e9f)
  {
    hide Rounds, Listed, OuterKeyWords;
    OuterKeySchedule(m);
    OuterKeyHalf(h, m);
    RoundsOn(h, m, 40, Registers(0xdcde6d3e, 0xa396482d, 0x43c787d3, 0xefcfef24, 0x7463fdd2),
             [0x64517177, 0x08b34e09, 0x7c2aaaa9, 0x8cde8d16, 0x46773f72, 0x874e6855, 0xce4f6f77, 0x650f4eb4]);
    RoundsOn(h, m, 48, Registers(0x064eea23, 0x792933cd, 0x4c6abd91, 0x25c40115, 0x7f18d568),
             [0xbbc6f18c, 0xc8c3166b, 0x95563705, 0x1b53e5f6, 0x8742f672, 0x94aaafbe, 0x8c6d6d51, 0x042f9d2d]);
    RoundsOn(h, m, 56, Registers(0x3c6a5d97, 0xf83fc4f2, 0x9b058f40, 0xd776afb3, 0x1029ac25),
             [0x6e2f0bd8, 0x8187704b, 0x56487fe7, 0xfdd816da, 0x1dfbac79, 0x4147ed70, 0x0879cae0, 0x6830d317]);
    RoundsOn(h, m, 64, Registers(0x5e17e407, 0xc751c55e, 0xe897f79a, 0x79376a49, 0xa30b74b0),
             [0x03f04042, 0xb4dc926c, 0x58d8db0e, 0xe3a239a0, 0x44114a6d, 0x123409db, 0x13332b92, 0x5312e839]);
    RoundsOn(h, m, 72, Registers(0xa70cf39f, 0x43830acf, 0x278e7015, 0x55c59e5e, 0x1bac175a),
             [0x53467b4c, 0xb761bedf, 0x80f3c152, 0x18f7728c, 0xcde52457, 0x7761eddd, 0x009ba778, 0x84371a2a]);
  }

  // Salt and block number.

  function InnerFirstWords(): Words {
    [0x73616c74, 0x00000001, 0x80000000, 0x00000000, 0x00000000, 0x00000000, 0x00000000, 0x00000000,
     0x00000000, 0x00000000, 0x00000000, 0x00000000, 0x00000000, 0x00000000, 0x00000000, 0x00000240]
  }

  lemma InnerFirstSchedule(m: Words)
    requires m == InnerFirstWords()
    ensures Listed(m, 0, [0x73616c74, 0x00000001, 0x80000000, 0x00000000, 0x00000000, 0x00000000, 0x00000000, 0x00000000])
    ensures Listed(m, 8, [0x00000000, 0x00000000, 0x00000000, 0x00000000, 0x00000000, 0x00000000, 0x00000000, 0x00000240])
    ensures Listed(m, 16, [0xe6c2d8e9, 0x00000002, 0x00000481, 0xcd85b1d3, 0x00000004, 0x00000902, 0x9b0b63a7, 0x00000488])
    ensures Listed(m, 24, [0xcd85a3d7, 0x3616c74b, 0x00000012, 0x00002408, 0x6c2d8e9e, 0x000016a0, 0xfb933e8c, 0xd85b10a8])
    ensures Listed(m, 32, [0x568ed23e, 0x0000902c, 0xb0b6287f, 0x36169dcf, 0xee4cfa23, 0x616c66ab, 0x3616c667, 0x00025290])
    ensures Listed(m, 40, [0xf4ce2ea1, 0x00016a10, 0xb933e8c7, 0x85b1038d, 0xf3e64042, 0x000910c8, 0x3d7452b0, 0x577f24ac])
    ensures Listed(m, 48, [0x25ff8850, 0x16c66a86, 0x616c3c6f, 0xee68e173, 0x7af42d00, 0x00163138, 0x2388b60a, 0x5b106258])
    ensures Listed(m, 56, [0xd028fe1c, 0x61fd6a23, 0xe153ed64, 0x77f01855, 0xab36aba3, 0x6c67d071, 0x99e6e97e, 0x633f0fa3])
    ensures Listed(m, 64, [0xf1b934a5, 0x016a1150, 0x33e9e751, 0xd06ff976, 0xe64043f3, 0x0910c880, 0x7452b03d, 0x7f248857])
    ensures Listed(m, 72, [0x93a5debb, 0xc66ba636, 0x0d505382, 0xb0bbdfd2, 0x25f74e30, 0x163089a0, 0x596d6469, 0x710db128])
  {
    hide Listed;
    FirstWords(m);
    assert m[..8] == [0x73616c74, 0x00000001, 0x80000000, 0x00000000, 0x00000000, 0x00000000, 0x00000000, 0x00000000]
      && m[8..] == [0x00000000, 0x00000000, 0x00000000, 0x00000000, 0x00000000, 0x00000000, 0x00000000, 0x00000240];
    WordsOn(m, 0, [0x73616c74, 0x00000001, 0x80000000, 0x00000000, 0x00000000, 0x00000000, 0x00000000, 0x00000000],
            [0x00000000, 0x00000000, 0x00000000, 0x00000000, 0x00000000, 0x00000000, 0x00000000, 0x00000240]);
    WordsOn(m, 8, [0x00000000, 0x00000000, 0x00000000, 0x00000000, 0x00000000, 0x00000000, 0x00000000, 0x00000240],
            [0xe6c2d8e9, 0x00000002, 0x00000481, 0xcd85b1d3, 0x00000004, 0x00000902, 0x9b0b63a7, 0x00000488]);
    WordsOn(m, 16, [0xe6c2d8e9, 0x00000002, 0x00000481, 0xcd85b1d3, 0x00000004, 0x00000902, 0x9b0b63a7, 0x00000488],
            [0xcd85a3d7, 0x3616c74b, 0x00000012, 0x00002408, 0x6c2d8e9e, 0x000016a0, 0xfb933e8c, 0xd85b10a8]);
    WordsOn(m, 24, [0xcd85a3d7, 0x3616c74b, 0x00000012, 0x00002408, 0x6c2d8e9e, 0x000016a0, 0xfb933e8c, 0xd85b10a8],
            [0x568ed23e, 0x0000902c, 0xb0b6287f, 0x36169dcf, 0xee4cfa23, 0x616c66ab, 0x3616c667, 0x00025290]);
    WordsOn(m, 32, [0x568ed23e, 0x0000902c, 0xb0b6287f, 0x36169dcf, 0xee4cfa23, 0x616c66ab, 0x3616c667, 0x00025290],
            [0xf4ce2ea1, 0x00016a10, 0xb933e8c7, 0x85b1038d, 0xf3e64042, 0x000910c8, 0x3d7452b0, 0x577f24ac]);
    WordsOn(m, 40, [0xf4ce2ea1, 0x00016a10, 0xb933e8c7, 0x85b1038d, 0xf3e64042, 0x000910c8, 0x3d7452b0, 0x577f24ac],
            [0x25ff8850, 0x16c66a86, 0x616c3c6f, 0xee68e173, 0x7af42d00, 0x00163138, 0x2388b60a, 0x5b106258]);
    WordsOn(m, 48, [0x25ff8850, 0x16c66a86, 0x616c3c6f, 0xee68e173, 0x7af42d00, 0x00163138, 0x2388b60a, 0x5b106258],
            [0xd028fe1c, 0x61fd6a23, 0xe153ed64, 0x77f01855, 0xab36aba3, 0x6c67d071, 0x99e6e97e, 0x633f0fa3]);
    WordsOn(m, 56, [0xd028fe1c, 0x61fd6a23, 0xe153ed64, 0x77f01855, 0xab36aba3, 0x6c67d071, 0x99e6e97e, 0x633f0fa3],
            [0xf1b934a5, 0x016a1150, 0x33e9e751, 0xd06ff976, 0xe64043f3, 0x0910c880, 0x7452b03d, 0x7f248857]);
  }

  lemma InnerFirstHalf(h: Registers, m: Words)
    requires h == Registers(0x084eb10f, 0x7f3bc5b8, 0x5b6b0b41, 0x4ed50043, 0xffe71f45) && m == InnerFirstWords()
    ensures Rounds(h, m, 40) == Registers(0x1bbfc200, 0x84d9e6d8, 0x201645eb, 0x3106e34e, 0x18168822)
  {
    hide Rounds, Listed, InnerFirstWords;
    InnerFirstSchedule(m);
    assert Rounds(h, m, 0) == h by { NoRounds(h, m); }
    RoundsOn(h, m, 0, Registers(0x084eb10f, 0x7f3bc5b8, 0x5b6b0b41, 0x4ed50043, 0xffe71f45),
             [0x73616c74, 0x00000001, 0x80000000, 0x00000000, 0x00000000, 0x00000000, 0x00000000, 0x00000000]);
    RoundsOn(h, m, 8, Registers(0xeebcef10, 0x2473786c, 0x060b8d62, 0x3cd6a8fc, 0x6e7228d7),
             [0x00000000, 0x00000000, 0x00000000, 0x00000000, 0x00000000, 0x00000000, 0x00000000, 0x00000240]);
    RoundsOn(h, m, 16, Registers(0x85eccefb, 0x63bc53db, 0x0674b528, 0xf3a7ba36, 0x3f318d14),
             [0xe6c2d8e9, 0x00000002, 0x00000481, 0xcd85b1d3, 0x00000004, 0x00000902, 0x9b0b63a7, 0x00000488]);
    RoundsOn(h, m, 24, Registers(0xa39edbea, 0x8a54978a, 0xd62d7369, 0xe78ea64c, 0xb137b49f),
             [0xcd85a3d7, 0x3616c74b, 0x00000012, 0x00002408, 0x6c2d8e9e, 0x000016a0, 0xfb933e8c, 0xd85b10a8]);
    RoundsOn(h, m, 32, Registers(0x59f766bb, 0xe4f7ee18, 0x475c3ff5, 0xd36594d5, 0x9b9c31ee),
             [0x568ed23e, 0x0000902c, 0xb0b6287f, 0x36169dcf, 0xee4cfa23, 0x616c66ab, 0x3616c667, 0x00025290]);
  }

  lemma InnerFirstRounds(h: Registers, m: Words)
    requires h == Registers(0x084eb10f, 0x7f3bc5b8, 0x5b6b0b41, 0x4ed50043, 0xffe71f45) && m == InnerFirstWords()
    ensures Sum(h, Rounds(h, m, 80)) == Registers(0x19a5f832, 0x15b595ef, 0x9cdfccfb, 0x3a8cc278, 0xe55b8576)
  {
    hide Rounds, Listed, InnerFirstWords;
    InnerFirstSchedule(m);
    InnerFirstHalf(h, m);
    RoundsOn(h, m, 40, Registers(0x1bbfc200, 0x84d9e6d8, 0x201645eb, 0x3106e34e, 0x18168822),
             [0xf4ce2ea1, 0x00016a10, 0xb933e8c7, 0x85b1038d, 0xf3e64042, 0x000910c8, 0x3d7452b0, 0x577f24ac]);
    RoundsOn(h, m, 48, Registers(0x0df7b896, 0x8d44809d, 0xb5445f77, 0x01382af6, 0xc1bd56af),
             [0x25ff8850, 0x16c66a86, 0x616c3c6f, 0xee68e173, 0x7af42d00, 0x00163138, 0x2388b60a, 0x5b106258]);
    RoundsOn(h, m, 56, Registers(0xfbfea0b4, 0x77a3aae4, 0x1d5bcb21, 0x82d7f4cb, 0x939bb897),
             [0xd028fe1c, 0x61fd6a23, 0xe153ed64, 0x77f01855, 0xab36aba3, 0x6c67d071, 0x99e6e97e, 0x633f0fa3]);
    RoundsOn(h, m, 64, Registers(0x16a51331, 0x504862f6, 0x05486482, 0x6b92294a, 0x22473366),
             [0xf1b934a5, 0x016a1150, 0x33e9e751, 0xd06ff976, 0xe64043f3, 0x0910c880, 0x7452b03d, 0x7f248857]);
    RoundsOn(h, m, 72, Registers(0xfbba6be7, 0x3bcbcf18, 0x91e37997, 0xa998f42d, 0xb30336e5),
             [0x93a5debb, 0xc66ba636, 0x0d505382, 0xb0bbdfd2, 0x25f74e30, 0x163089a0, 0x596d6469, 0x710db128]);
  }

  // The outer hash of it.

  function OuterFirstWords(): Words {
    [0x19a5f832, 0x15b595ef, 0x9cdfccfb, 0x3a8cc278, 0xe55b8576, 0x80000000, 0x00000000, 0x00000000,
     0x00000000, 0x00000000, 0x00000000, 0x00000000, 0x00000000, 0x00000000, 0x00000000, 0x000002a0]
  }

  lemma OuterFirstSchedule(m: Words)
    requires m == OuterFirstWords()
    ensures Listed(m, 0, [0x19a5f832, 0x15b595ef, 0x9cdfccfb, 0x3a8cc278, 0xe55b8576, 0x80000000, 0x00000000, 0x00000000])
    ensures Listed(m, 8, [0x00000000, 0x00000000, 0x00000000, 0x00000000, 0x00000000, 0x00000000, 0x00000000, 0x000002a0])
    ensures Listed(m, 16, [0x0af46993, 0x5e72af2e, 0xf308965a, 0x60f157d7, 0x765254b1, 0xe6112cb4, 0xc1e2afae, 0xeca4ac22])
    ensures Listed(m, 24, [0xd9ca8a4f, 0x3f200101, 0x3f5874f0, 0x7277bb31, 0x92e4ab60, 0xb292b5c9, 0x72c2fa19, 0x40655598])
    ensures Listed(m, 32, [0x2549809f, 0xe6c207c2, 0xf4cfc707, 0xa3bc819b, 0x872caf7b, 0x99d1e4b0, 0x92acbcc7, 0x299aaf80])
    ensures Listed(m, 40, [0xb4153520, 0x7272026a, 0xe1d36e2e, 0xae997487, 0x2af1f8d0, 0x15ead59f, 0xd77d658c, 0x4b980a15])
    ensures Listed(m, 48, [0xe0f34e4e, 0xc0e3c37f, 0xb350188f, 0xe80ebfc4, 0xff245027, 0x2de30c40, 0x3394a75e, 0xdea9efb1])
    ensures Listed(m, 56, [0x31ac3201, 0x5f382598, 0x4db6c381, 0xc5a259ba, 0xbb21d1c6, 0x7c4e2096, 0x8371aa4d, 0xdde7ee3b])
    ensures Listed(m, 64, [0x3c8288ac, 0xe949e6dd, 0xb84aca25, 0x799ac524, 0x3db180c5, 0x6e9c1284, 0xf1a7f46d, 0xc38f49ae])
    ensures Listed(m, 72, [0x5c08d750, 0x04e8dd25, 0x1aa52399, 0x38fcd6b1, 0x02124cd6, 0xab21ff61, 0xed50007a, 0xea661b3d])
  {
    hide Listed;
    FirstWords(m);
    assert m[..8] == [0x19a5f832, 0x15b595ef, 0x9cdfccfb, 0x3a8cc278, 0xe55b8576, 0x80000000, 0x00000000, 0x00000000]
      && m[8..] == [0x00000000, 0x00000000, 0x00000000, 0x00000000, 0x00000000, 0x00000000, 0x00000000, 0x000002a0];
    WordsOn(m, 0, [0x19a5f832, 0x15b595ef, 0x9cdfccfb, 0x3a8cc278, 0xe55b8576, 0x80000000, 0x00000000, 0x00000000],
            [0x00000000, 0x00000000, 0x00000000, 0x00000000, 0x00000000, 0x00000000, 0x00000000, 0x000002a0]);
    WordsOn(m, 8, [0x00000000, 0x00000000, 0x00000000, 0x00000000, 0x00000000, 0x00000000, 0x00000000, 0x000002a0],
            [0x0af46993, 0x5e72af2e, 0xf308965a, 0x60f157d7, 0x765254b1, 0xe6112cb4, 0xc1e2afae, 0xeca4ac22]);
    WordsOn(m, 16, [0x0af46993, 0x5e72af2e, 0xf308965a, 0x60f157d7, 0x765254b1, 0xe6112cb4, 0xc1e2afae, 0xeca4ac22],
            [0xd9ca8a4f, 0x3f200101, 0x3f5874f0, 0x7277bb31, 0x92e4ab60, 0xb292b5c9, 0x72c2fa19, 0x40655598]);
    WordsOn(m, 24, [0xd9ca8a4f, 0x3f200101, 0x3f5874f0, 0x7277bb31, 0x92e4ab60, 0xb292b5c9, 0x72c2fa19, 0x40655598],
            [0x2549809f, 0xe6c207c2, 0xf4cfc707, 0xa3bc819b, 0x872caf7b, 0x99d1e4b0, 0x92acbcc7, 0x299aaf80]);
    WordsOn(m, 32, [0x2549809f, 0xe6c207c2, 0xf4cfc707, 0xa3bc819b, 0x872caf7b, 0x99d1e4b0, 0x92acbcc7, 0x299aaf80],
            [0xb4153520, 0x7272026a, 0xe1d36e2e, 0xae997487, 0x2af1f8d0, 0x15ead59f, 0xd77d658c, 0x4b980a15]);
    WordsOn(m, 40, [0xb4153520, 0x7272026a, 0xe1d36e2e, 0xae997487, 0x2af1f8d0, 0x15ead59f, 0xd77d658c, 0x4b980a15],
            [0xe0f34e4e, 0xc0e3c37f, 0xb350188f, 0xe80ebfc4, 0xff245027, 0x2de30c40, 0x3394a75e, 0xdea9efb1]);
    WordsOn(m, 48, [0xe0f34e4e, 0xc0e3c37f, 0xb350188f, 0xe80ebfc4, 0xff245027, 0x2de30c40, 0x3394a75e, 0xdea9efb1],
            [0x31ac3201, 0x5f382598, 0x4db6c381, 0xc5a259ba, 0xbb21d1c6, 0x7c4e2096, 0x8371aa4d, 0xdde7ee3b]);
    WordsOn(m, 56, [0x31ac3201, 0x5f382598, 0x4db6c381, 0xc5a259ba, 0xbb21d1c6, 0x7c4e2096, 0x8371aa4d, 0xdde7ee3b],
            [0x3c8288ac, 0xe949e6dd, 0xb84aca25, 0x799ac524, 0x3db180c5, 0x6e9c1284, 0xf1a7f46d, 0xc38f49ae]);
  }

  lemma OuterFirstHalf(h: Registers, m: Words)
    requires h == Registers(0xf0bb8fe5, 0xb5a3bda6, 0x9e9ead99, 0xab1f903a, 0x885e1e9f) && m == OuterFirstWords()
    ensures Rounds(h, m, 40) == Registers(0x24e6b60a, 0x0becca75, 0xccf808b0, 0x940f0130, 0xe53fab73)
  {
    hide Rounds, Listed, OuterFirstWords;
    OuterFirstSchedule(m);
    assert Rounds(h, m, 0) == h by { NoRounds(h, m); }
    RoundsOn(h, m, 0, Registers(0xf0bb8fe5, 0xb5a3bda6, 0x9e9ead99, 0xab1f903a, 0x885e1e9f),
             [0x19a5f832, 0x15b595ef, 0x9cdfccfb, 0x3a8cc278, 0xe55b8576, 0x80000000, 0x00000000, 0x00000000]);
    RoundsOn(h, m, 8, Registers(0x439a2bd8, 0xd7f00ad2, 0x0c06ea01, 0x5bb975dc, 0xb2cdae57),
             [0x00000000, 0x00000000, 0x00000000, 0x00000000, 0x00000000, 0x00000000, 0x00000000, 0x000002a0]);
    RoundsOn(h, m, 16, Registers(0xd0e89f14, 0x2e65ccca, 0x61b39956, 0xb489814c, 0x05671b10),
             [0x0af46993, 0x5e72af2e, 0xf308965a, 0x60f157d7, 0x765254b1, 0xe6112cb4, 0xc1e2afae, 0xeca4ac22]);
    RoundsOn(h, m, 24, Registers(0xcb372b49, 0x4c72d771, 0x44a2cae0, 0x971ee7c7, 0x711aaaa7),
             [0xd9ca8a4f, 0x3f200101, 0x3f5874f0, 0x7277bb31, 0x92e4ab60, 0xb292b5c9, 0x72c2fa19, 0x40655598]);
    RoundsOn(h, m, 32, Registers(0x1bed6b0b, 0xe226cea0, 0x7b57d2dc, 0x9f44f6eb, 0x403b63c5),
             [0x2549809f, 0xe6c207c2, 0xf4cfc707, 0xa3bc819b, 0x872caf7b, 0x99d1e4b0, 0x92acbcc7, 0x299aaf80]);
  }

  lemma OuterFirstRounds(h: Registers, m: Words)
    requires h == Registers(0xf0bb8fe5, 0xb5a3bda6, 0x9e9ead99, 0xab1f903a, 0x885e1e9f) && m == OuterFirstWords()
    ensures Sum(h, Rounds(h, m, 80)) == Registers(0x0c60c80f, 0x961f0e71, 0xf3a9b524, 0xaf601206, 0x2fe037a6)
  {
    hide Rounds, Listed, OuterFirstWords;
    OuterFirstSchedule(m);
    OuterFirstHalf(h, m);
    RoundsOn(h, m, 40, Registers(0x24e6b60a, 0x0becca75, 0xccf808b0, 0x940f0130, 0xe53fab73),
             [0xb4153520, 0x7272026a, 0xe1d36e2e, 0xae997487, 0x2af1f8d0, 0x15ead59f, 0xd77d658c, 0x4b980a15]);
    RoundsOn(h, m, 48, Registers(0xc693335d, 0x13d38c1f, 0x02718447, 0x1b0fdea2, 0x0550d67b),
             [0xe0f34e4e, 0xc0e3c37f, 0xb350188f, 0xe80ebfc4, 0xff245027, 0x2de30c40, 0x3394a75e, 0xdea9efb1]);
    RoundsOn(h, m, 56, Registers(0xb3049922, 0x10809395, 0x5b31de8a, 0xf3a6759d, 0x4530dafb),
             [0x31ac3201, 0x5f382598, 0x4db6c381, 0xc5a259ba, 0xbb21d1c6, 0x7c4e2096, 0x8371aa4d, 0xdde7ee3b]);
    RoundsOn(h, m, 64, Registers(0x127bf17f, 0x6098b598, 0x42936f4c, 0xb494e161, 0x36aaa073),
             [0x3c8288ac, 0xe949e6dd, 0xb84aca25, 0x799ac524, 0x3db180c5, 0x6e9c1284, 0xf1a7f46d, 0xc38f49ae]);
    RoundsOn(h, m, 72, Registers(0xf2af089f, 0x065d077e, 0x012369d0, 0x59dfc992, 0x2f7f9be1),
             [0x5c08d750, 0x04e8dd25, 0x1aa52399, 0x38fcd6b1, 0x02124cd6, 0xab21ff61, 0xed50007a, 0xea661b3d]);
  }

  // The first result.

  function InnerSecondWords(): Words {
    [0x0c60c80f, 0x961f0e71, 0xf3a9b524, 0xaf601206, 0x2fe037a6, 0x80000000, 0x00000000, 0x00000000,
     0x00000000, 0x00000000, 0x00000000, 0x00000000, 0x00000000, 0x00000000, 0x00000000, 0x000002a0]
  }

  lemma InnerSecondSchedule(m: Words)
    requires m == InnerSecondWords()
    ensures Listed(m, 0, [0x0c60c80f, 0x961f0e71, 0xf3a9b524, 0xaf601206, 0x2fe037a6, 0x80000000, 0x00000000, 0x00000000])
    ensures Listed(m, 8, [0x00000000, 0x00000000, 0x00000000, 0x00000000, 0x00000000, 0x00000000, 0x00000000, 0x000002a0])
    ensures Listed(m, 16, [0xff92fa57, 0x72fe38ee, 0xb8930045, 0xa1e5d0a3, 0xba3c1e90, 0x7126008a, 0x43cba147, 0x74783861])
    ensures Listed(m, 24, [0x1d69f5bb, 0x626b3352, 0x99d67049, 0x79184a31, 0xb0ae5b85, 0xd1e0e4c7, 0x8a822243, 0x6c50b355])
    ensures Listed(m, 32, [0x1711d6dd, 0x77e5f2b8, 0xee53bb93, 0x7d94998b, 0x7d782dd4, 0x75dacf7e, 0x5369de69, 0x0e772b64])
    ensures Listed(m, 40, [0xcce938a3, 0x7ffeab64, 0x92b97677, 0x330a1fbc, 0x7155feec, 0xb5a7dd36, 0xfbe06a97, 0xc92f28ca])
    ensures Listed(m, 48, [0x001911b7, 0x1cdf5581, 0x917b91f5, 0x76bab1fc, 0x8736b1a0, 0xbee351b2, 0x25b47b42, 0x7f2032d4])
    ensures Listed(m, 56, [0xc1541da3, 0xeb3f3436, 0x1b6e5774, 0x6286ddaa, 0xcd7823db, 0xb20be675, 0x7997bb91, 0xcf50d888])
    ensures Listed(m, 64, [0xc47af729, 0xf19ad7b5, 0x84e75f53, 0xdd4b959a, 0x3cc07d19, 0xee5fb481, 0x807891d4, 0xcf1f46e6])
    ensures Listed(m, 72, [0xe03e12ff, 0xf0b75ffb, 0x3bdcda35, 0xdbf17975, 0xf1317550, 0x51b0a093, 0xccc94833, 0x01c87916])
  {
    hide Listed;
    FirstWords(m);
    assert m[..8] == [0x0c60c80f, 0x961f0e71, 0xf3a9b524, 0xaf601206, 0x2fe037a6, 0x80000000, 0x00000000, 0x00000000]
      && m[8..] == [0x00000000, 0x00000000, 0x00000000, 0x00000000, 0x00000000, 0x00000000, 0x00000000, 0x000002a0];
    WordsOn(m, 0, [0x0c60c80f, 0x961f0e71, 0xf3a9b524, 0xaf601206, 0x2fe037a6, 0x80000000, 0x00000000, 0x00000000],
            [0x00000000, 0x00000000, 0x00000000, 0x00000000, 0x00000000, 0x00000000, 0x00000000, 0x000002a0]);
    WordsOn(m, 8, [0x00000000, 0x00000000, 0x00000000, 0x00000000, 0x00000000, 0x00000000, 0x00000000, 0x000002a0],
            [0xff92fa57, 0x72fe38ee, 0xb8930045, 0xa1e5d0a3, 0xba3c1e90, 0x7126008a, 0x43cba147, 0x74783861]);
    WordsOn(m, 16, [0xff92fa57, 0x72fe38ee, 0xb8930045, 0xa1e5d0a3, 0xba3c1e90, 0x7126008a, 0x43cba147, 0x74783861],
            [0x1d69f5bb, 0x626b3352, 0x99d67049, 0x79184a31, 0xb0ae5b85, 0xd1e0e4c7, 0x8a822243, 0x6c50b355]);
    WordsOn(m, 24, [0x1d69f5bb, 0x626b3352, 0x99d67049, 0x79184a31, 0xb0ae5b85, 0xd1e0e4c7, 0x8a822243, 0x6c50b355],
            [0x1711d6dd, 0x77e5f2b8, 0xee53bb93, 0x7d94998b, 0x7d782dd4, 0x75dacf7e, 0x5369de69, 0x0e772b64]);
    WordsOn(m, 32, [0x1711d6dd, 0x77e5f2b8, 0xee53bb93, 0x7d94998b, 0x7d782dd4, 0x75dacf7e, 0x5369de69, 0x0e772b64],
            [0xcce938a3, 0x7ffeab64, 0x92b97677, 0x330a1fbc, 0x7155feec, 0xb5a7dd36, 0xfbe06a97, 0xc92f28ca]);
    WordsOn(m, 40, [0xcce938a3, 0x7ffeab64, 0x92b97677, 0x330a1fbc, 0x7155feec, 0xb5a7dd36, 0xfbe06a97, 0xc92f28ca],
            [0x001911b7, 0x1cdf5581, 0x917b91f5, 0x76bab1fc, 0x8736b1a0, 0xbee351b2, 0x25b47b42, 0x7f2032d4]);
    WordsOn(m, 48, [0x001911b7, 0x1cdf5581, 0x917b91f5, 0x76bab1fc, 0x8736b1a0, 0xbee351b2, 0x25b47b42, 0x7f2032d4],
            [0xc1541da3, 0xeb3f3436, 0x1b6e5774, 0x6286ddaa, 0xcd7823db, 0xb20be675, 0x7997bb91, 0xcf50d888]);
    WordsOn(m, 56, [0xc1541da3, 0xeb3f3436, 0x1b6e5774, 0x6286ddaa, 0xcd7823db, 0xb20be675, 0x7997bb91, 0xcf50d888],
            [0xc47af729, 0xf19ad7b5, 0x84e75f53, 0xdd4b959a, 0x3cc07d19, 0xee5fb481, 0x807891d4, 0xcf1f46e6]);
  }

  lemma InnerSecondHalf(h: Registers, m: Words)
    requires h == Registers(0x084eb10f, 0x7f3bc5b8, 0x5b6b0b41, 0x4ed50043, 0xffe71f45) && m == InnerSecondWords()
    ensures Rounds(h, m, 40) == Registers(0xe6d37d37, 0x43ca6f2f, 0x5a465de0, 0xfef98a73, 0xf7e8c574)
  {
    hide Rounds, Listed, InnerSecondWords;
    InnerSecondSchedule(m);
    assert Rounds(h, m, 0) == h by { NoRounds(h, m); }
    RoundsOn(h, m, 0, Registers(0x084eb10f, 0x7f3bc5b8, 0x5b6b0b41, 0x4ed50043, 0xffe71f45),
             [0x0c60c80f, 0x961f0e71, 0xf3a9b524, 0xaf601206, 0x2fe037a6, 0x80000000, 0x00000000, 0x00000000]);
    RoundsOn(h, m, 8, Registers(0xb2fdad10, 0xb1ed846c, 0x059750bc, 0xbd7f226d, 0x808ca915),
             [0x00000000, 0x00000000, 0x00000000, 0x00000000, 0x00000000, 0x00000000, 0x00000000, 0x000002a0]);
    RoundsOn(h, m, 16, Registers(0x016c5a22, 0xb130713a, 0xc2abeda7, 0x01a74391, 0x575a895d),
             [0xff92fa57, 0x72fe38ee, 0xb8930045, 0xa1e5d0a3, 0xba3c1e90, 0x7126008a, 0x43cba147, 0x74783861]);
    RoundsOn(h, m, 24, Registers(0xc7aa0adc, 0x90a1c56f, 0xb22a1d68, 0xa009597c, 0x6899a67e),
             [0x1d69f5bb, 0x626b3352, 0x99d67049, 0x79184a31, 0xb0ae5b85, 0xd1e0e4c7, 0x8a822243, 0x6c50b355]);
    RoundsOn(h, m, 32, Registers(0x7f409504, 0xb8be2031, 0x32938465, 0x0b843365, 0xf7eca197),
             [0x1711d6dd, 0x77e5f2b8, 0xee53bb93, 0x7d94998b, 0x7d782dd4, 0x75dacf7e, 0x5369de69, 0x0e772b64]);
  }

  lemma InnerSecondRounds(h: Registers, m: Words)
    requires h == Registers(0x084eb10f, 0x7f3bc5b8, 0x5b6b0b41, 0x4ed50043, 0xffe71f45) && m == InnerSecondWords()
    ensures Sum(h, Rounds(h, m, 80)) == Registers(0xe68666aa, 0x9b5c90a5, 0xf1deb44a, 0xb7f9f4e4, 0x079e4fdc)
  {
    hide Rounds, Listed, InnerSecondWords;
    InnerSecondSchedule(m);
    InnerSecondHalf(h, m);
    RoundsOn(h, m, 40, Registers(0xe6d37d37, 0x43ca6f2f, 0x5a465de0, 0xfef98a73, 0xf7e8c574),
             [0xcce938a3, 0x7ffeab64, 0x92b97677, 0x330a1fbc, 0x7155feec, 0xb5a7dd36, 0xfbe06a97, 0xc92f28ca]);
    RoundsOn(h, m, 48, Registers(0x772d80c5, 0x4f13b981, 0x6d049025, 0x68171d2f, 0x9849a89a),
             [0x001911b7, 0x1cdf5581, 0x917b91f5, 0x76bab1fc, 0x8736b1a0, 0xbee351b2, 0x25b47b42, 0x7f2032d4]);
    RoundsOn(h, m, 56, Registers(0xb802bf36, 0x08035d67, 0xe809943e, 0xd23cbf4d, 0x154000d1),
             [0xc1541da3, 0xeb3f3436, 0x1b6e5774, 0x6286ddaa, 0xcd7823db, 0xb20be675, 0x7997bb91, 0xcf50d888]);
    RoundsOn(h, m, 64, Registers(0xa384d6d7, 0xa7402bfe, 0xac2e2d70, 0x8a54e008, 0xe16892b9),
             [0xc47af729, 0xf19ad7b5, 0x84e75f53, 0xdd4b959a, 0x3cc07d19, 0xee5fb481, 0x807891d4, 0xcf1f46e6]);
    RoundsOn(h, m, 72, Registers(0x3117b0e2, 0x5708cbef, 0x3ac5d703, 0xafea3e7b, 0xa8a72248),
             [0xe03e12ff, 0xf0b75ffb, 0x3bdcda35, 0xdbf17975, 0xf1317550, 0x51b0a093, 0xccc94833, 0x01c87916]);
  }

  // The outer hash of it.

  function OuterSecondWords(): Words {
    [0xe68666aa, 0x9b5c90a5, 0xf1deb44a, 0xb7f9f4e4, 0x079e4fdc, 0x80000000, 0x00000000, 0x00000000,
     0x00000000, 0x00000000, 0x00000000, 0x00000000, 0x00000000, 0x00000000, 0x00000000, 0x000002a0]
  }

  lemma OuterSecondSchedule(m: Words)
    requires m == OuterSecondWords()
    ensures Listed(m, 0, [0xe68666aa, 0x9b5c90a5, 0xf1deb44a, 0xb7f9f4e4, 0x079e4fdc, 0x80000000, 0x00000000, 0x00000000])
    ensures Listed(m, 8, [0x00000000, 0x00000000, 0x00000000, 0x00000000, 0x00000000, 0x00000000, 0x00000000, 0x000002a0])
    ensures Listed(m, 16, [0x2eb1a5c0, 0x594ac882, 0xec81f26d, 0x3290a248, 0xbda90ebc, 0xd903e4da, 0x65214490, 0x7b521839])
    ensures Listed(m, 24, [0xef648235, 0x78d71824, 0x2fa7d4a9, 0xbbe840fb, 0x8afc2d31, 0xed4865a7, 0xe0f14357, 0x51c9fe55])
    ensures Listed(m, 32, [0x8039607f, 0xe7f86373, 0x5e8dac5a, 0xa084cc2d, 0x6b1808dd, 0x23286a3c, 0x946093bf, 0x72a9ed2a])
    ensures Listed(m, 40, [0xc7a4b9be, 0x614f5027, 0x12ff71d1, 0x6300a19e, 0xc0b46d38, 0x1aad003f, 0x2f502213, 0x08583a68])
    ensures Listed(m, 48, [0x077aeb48, 0x12c7bad4, 0x5e65de7c, 0xcfadd98f, 0x5a16991c, 0x2a92b2aa, 0x6673a33b, 0x83503cf2])
    ensures Listed(m, 56, [0xf167231b, 0xedf7d0ac, 0x1efdfcce, 0x8eceb66a, 0xb00a0d36, 0x4d34e866, 0x812fb815, 0x538b62f0])
    ensures Listed(m, 64, [0xca99fc93, 0x636417c5, 0x920bb2bc, 0x42d043b9, 0xde1641a9, 0xedfba904, 0xa9d6f718, 0xc6759e0f])
    ensures Listed(m, 72, [0x91f11485, 0x53170c37, 0xf513ba97, 0x21b61260, 0x7849f17b, 0x0caf320a, 0x87ad43fd, 0x1da63483])
  {
    hide Listed;
    FirstWords(m);
    assert m[..8] == [0xe68666aa, 0x9b5c90a5, 0xf1deb44a, 0xb7f9f4e4, 0x079e4fdc, 0x80000000, 0x00000000, 0x00000000]
      && m[8..] == [0x00000000, 0x00000000, 0x00000000, 0x00000000, 0x00000000, 0x00000000, 0x00000000, 0x000002a0];
    WordsOn(m, 0, [0xe68666aa, 0x9b5c90a5, 0xf1deb44a, 0xb7f9f4e4, 0x079e4fdc, 0x80000000, 0x00000000, 0x00000000],
            [0x00000000, 0x00000000, 0x00000000, 0x00000000, 0x00000000, 0x00000000, 0x00000000, 0x000002a0]);
    WordsOn(m, 8, [0x00000000, 0x00000000, 0x00000000, 0x00000000, 0x00000000, 0x00000000, 0x00000000, 0x000002a0],
            [0x2eb1a5c0, 0x594ac882, 0xec81f26d, 0x3290a248, 0xbda90ebc, 0xd903e4da, 0x65214490, 0x7b521839]);
    WordsOn(m, 16, [0x2eb1a5c0, 0x594ac882, 0xec81f26d, 0x3290a248, 0xbda90ebc, 0xd903e4da, 0x65214490, 0x7b521839],
            [0xef648235, 0x78d71824, 0x2fa7d4a9, 0xbbe840fb, 0x8afc2d31, 0xed4865a7, 0xe0f14357, 0x51c9fe55]);
    WordsOn(m, 24, [0xef648235, 0x78d71824, 0x2fa7d4a9, 0xbbe840fb, 0x8afc2d31, 0xed4865a7, 0xe0f14357, 0x51c9fe55],
            [0x8039607f, 0xe7f86373, 0x5e8dac5a, 0xa084cc2d, 0x6b1808dd, 0x23286a3c, 0x946093bf, 0x72a9ed2a]);
    WordsOn(m, 32, [0x8039607f, 0xe7f86373, 0x5e8dac5a, 0xa084cc2d, 0x6b1808dd, 0x23286a3c, 0x946093bf, 0x72a9ed2a],
            [0xc7a4b9be, 0x614f5027, 0x12ff71d1, 0x6300a19e, 0xc0b46d38, 0x1aad003f, 0x2f502213, 0x08583a68]);
    WordsOn(m, 40, [0xc7a4b9be, 0x614f5027, 0x12ff71d1, 0x6300a19e, 0xc0b46d38, 0x1aad003f, 0x2f502213, 0x08583a68],
            [0x077aeb48, 0x12c7bad4, 0x5e65de7c, 0xcfadd98f, 0x5a16991c, 0x2a92b2aa, 0x6673a33b, 0x83503cf2]);
    WordsOn(m, 48, [0x077aeb48, 0x12c7bad4, 0x5e65de7c, 0xcfadd98f, 0x5a16991c, 0x2a92b2aa, 0x6673a33b, 0x83503cf2],
            [0xf167231b, 0xedf7d0ac, 0x1efdfcce, 0x8eceb66a, 0xb00a0d36, 0x4d34e866, 0x812fb815, 0x538b62f0]);
    WordsOn(m, 56, [0xf167231b, 0xedf7d0ac, 0x1efdfcce, 0x8eceb66a, 0xb00a0d36, 0x4d34e866, 0x812fb815, 0x538b62f0],
            [0xca99fc93, 0x636417c5, 0x920bb2bc, 0x42d043b9, 0xde1641a9, 0xedfba904, 0xa9d6f718, 0xc6759e0f]);
  }

  lemma OuterSecondHalf(h: Registers, m: Words)
    requires h == Registers(0xf0bb8fe5, 0xb5a3bda6, 0x9e9ead99, 0xab1f903a, 0x885e1e9f) && m == OuterSecondWords()
    ensures Rounds(h, m, 40) == Registers(0xff7739cd, 0x88a4f890, 0x4908aecf, 0xe349ec6a, 0x7049e3dd)
  {
    hide Rounds, Listed, OuterSecondWords;
    OuterSecondSchedule(m);
    assert Rounds(h, m, 0) == h by { NoRounds(h, m); }
    RoundsOn(h, m, 0, Registers(0xf0bb8fe5, 0xb5a3bda6, 0x9e9ead99, 0xab1f903a, 0x885e1e9f),
             [0xe68666aa, 0x9b5c90a5, 0xf1deb44a, 0xb7f9f4e4, 0x079e4fdc, 0x80000000, 0x00000000, 0x00000000]);
    RoundsOn(h, m, 8, Registers(0x519169b0, 0xe516d4b9, 0x42a04a0c, 0x2c0b3110, 0x2164281d),
             [0x00000000, 0x00000000, 0x00000000, 0x00000000, 0x00000000, 0x00000000, 0x00000000, 0x000002a0]);
    RoundsOn(h, m, 16, Registers(0x70101fdc, 0x24af6832, 0xfbc2f4ca, 0xe6c781fa, 0x655d5f74),
             [0x2eb1a5c0, 0x594ac882, 0xec81f26d, 0x3290a248, 0xbda90ebc, 0xd903e4da, 0x65214490, 0x7b521839]);
    RoundsOn(h, m, 24, Registers(0xcb17b77d, 0xcf7e61cb, 0xc5fc91e9, 0x1f83ba1a, 0x073b54c2),
             [0xef648235, 0x78d71824, 0x2fa7d4a9, 0xbbe840fb, 0x8afc2d31, 0xed4865a7, 0xe0f14357, 0x51c9fe55]);
    RoundsOn(h, m, 32, Registers(0x69476c55, 0x8b8dda01, 0x0f18306d, 0xa8d4e90c, 0x65d173eb),
             [0x8039607f, 0xe7f86373, 0x5e8dac5a, 0xa084cc2d, 0x6b1808dd, 0x23286a3c, 0x946093bf, 0x72a9ed2a]);
  }

  lemma OuterSecondRounds(h: Registers, m: Words)
    requires h == Registers(0xf0bb8fe5, 0xb5a3bda6, 0x9e9ead99, 0xab1f903a, 0x885e1e9f) && m == OuterSecondWords()
    ensures Sum(h, Rounds(h, m, 80)) == Registers(0xe60cc942, 0x513261fd, 0x3eb76c0e, 0x617d53f6, 0xf73ebef1)
  {
    hide Rounds, Listed, OuterSecondWords;
    OuterSecondSchedule(m);
    OuterSecondHalf(h, m);
    RoundsOn(h, m, 40, Registers(0xff7739cd, 0x88a4f890, 0x4908aecf, 0xe349ec6a, 0x7049e3dd),
             [0xc7a4b9be, 0x614f5027, 0x12ff71d1, 0x6300a19e, 0xc0b46d38, 0x1aad003f, 0x2f502213, 0x08583a68]);
    RoundsOn(h, m, 48, Registers(0x5043fec6, 0x95433a68, 0x510aa750, 0xc06e1147, 0x0c44bf31),
             [0x077aeb48, 0x12c7bad4, 0x5e65de7c, 0xcfadd98f, 0x5a16991c, 0x2a92b2aa, 0x6673a33b, 0x83503cf2]);
    RoundsOn(h, m, 56, Registers(0x276200c8, 0x702b0fb6, 0x3c31581f, 0xb073b5cb, 0x6fd4a391),
             [0xf167231b, 0xedf7d0ac, 0x1efdfcce, 0x8eceb66a, 0xb00a0d36, 0x4d34e866, 0x812fb815, 0x538b62f0]);
    RoundsOn(h, m, 64, Registers(0x139e3cda, 0xd1ac84d2, 0x9bf7880d, 0x2d3a7c0c, 0xe8b7908f),
             [0xca99fc93, 0x636417c5, 0x920bb2bc, 0x42d043b9, 0xde1641a9, 0xedfba904, 0xa9d6f718, 0xc6759e0f]);
    RoundsOn(h, m, 72, Registers(0x6d3fd2f2, 0x4c67c744, 0x8f2feea6, 0x60edacf7, 0x7d943206),
             [0x91f11485, 0x53170c37, 0xf513ba97, 0x21b61260, 0x7849f17b, 0x0caf320a, 0x87ad43fd, 0x1da63483]);
  }

  lemma NoRounds(h: Registers, m: Words)
    ensures Rounds(h, m, 0) == h
  {
  }

  // From words to bytes.

  lemma WordAt(chunk: Chunk, t: nat)
    requires t < 16
    ensures WordsOf(chunk)[t] == WordOf(chunk[4 * t], chunk[4 * t + 1], chunk[4 * t + 2], chunk[4 * t + 3])
  {
  }

  /** The last chunk of a message that starts with a chunk and goes on with at most 55 bytes. */
  function LastChunk(m: bytes): Chunk
    requires |m| <= 55
  {
    m + [0x80] + Zeros(55 - |m|) + BigEndian(8 * (64 + |m|), 8)
  }

  lemma TwoChunks(a: Chunk, m: bytes)
    requires |m| <= 55
    ensures Sha1Digest(a + m) == Digest(Compress(Compress(INITIAL, a), LastChunk(m)))
  {
    hide Compress, BigEndian, Digest;
    var last := LastChunk(m);
    assert Pad(a + m) == a + last by {
      assert PadZeros(64 + |m|) == 55 - |m|;
    }
    HashChunk(INITIAL, a, last);
    assert Hash(INITIAL, a) == Compress(INITIAL, a) by { OneChunk(INITIAL, a); }
  }

  lemma OneChunk(h: Registers, a: Chunk)
    ensures Hash(h, a) == Compress(h, a)
  {
    hide Compress;
    assert a[..64] == a && a[64..] == [];
  }

  lemma WordBytes(w: Word)
    ensures var b := BytesOf(w); WordOf(b[0], b[1], b[2], b[3]) == w
  {
  }

  lemma Lengths()
    ensures BigEndian(576, 8) == [0, 0, 0, 0, 0, 0, 0x02, 0x40]
    ensures BigEndian(672, 8) == [0, 0, 0, 0, 0, 0, 0x02, 0xa0]
    ensures BigEndian(1, 4) == [0, 0, 0, 1]
  {
    hide BigEndian, Byte;
    BigEndian8(576);
    BigEndian8(672);
    BigEndian4(0);
    BigEndian4(1);
    BigEndian4(576);
    BigEndian4(672);
    SmallBytes();
  }

  lemma SmallBytes()
    ensures Byte(0) == 0 && Byte(1) == 1 && Byte(2) == 2 && Byte(576) == 0x40 && Byte(672) == 0xa0
  {
  }

  /** The words of a chunk that is a digest with its padding. */
  function DigestWords(r: Registers): Words {
    [r.a, r.b, r.c, r.d, r.e, 0x80000000, 0, 0, 0, 0, 0, 0, 0, 0, 0, 0x000002a0]
  }

  /** The big-endian words at the front of some bytes. */
  ghost predicate Begins(b: bytes, w: seq<Word>) {
    hide WordOf;
    |b| >= 4 * |w| && forall k :: 0 <= k < |w| ==> WordOf(b[4 * k], b[4 * k + 1], b[4 * k + 2], b[4 * k + 3]) == w[k]
  }

  lemma DigestBegins(r: Registers)
    ensures Begins(Digest(r), [r.a, r.b, r.c, r.d, r.e])
  {
    hide BytesOf, WordOf;
    WordBytes(r.a);
    WordBytes(r.b);
    WordBytes(r.c);
    WordBytes(r.d);
    WordBytes(r.e);
  }

  lemma LastChunkAt(m: bytes, length: bv8)
    requires |m| <= 52 && BigEndian(8 * (64 + |m|), 8) == [0, 0, 0, 0, 0, 0, 0x02, length]
    ensures var c := LastChunk(m);
      && (forall i :: 0 <= i < |m| ==> c[i] == m[i]) && c[|m|] == 0x80
      && (forall i :: |m| < i < 62 ==> c[i] == 0) && c[62] == 0x02 && c[63] == length
  {
    hide BigEndian;
  }

  /** The words of a last chunk: those of the text, the one bit, zeros and the length. */
  lemma LastWords(m: bytes, w: seq<Word>, length: bv8)
    requires |m| <= 52 && |m| == 4 * |w| && Begins(m, w) && BigEndian(8 * (64 + |m|), 8) == [0, 0, 0, 0, 0, 0, 0x02, length]
    ensures var ws := WordsOf(LastChunk(m)); var n := |w|;
      && ws[..n] == w && ws[n] == 0x80000000 && (forall t :: n < t < 15 ==> ws[t] == 0) && ws[15] == WordOf(0, 0, 0x02, length)
  {
    hide WordOf, BigEndian, LastChunk, WordsOf;
    var chunk, n := LastChunk(m), |w|;
    LastChunkAt(m, length);
    PaddingWords();
    WordAt(chunk, n);
    WordAt(chunk, 15);
    forall t | 0 <= t < n
      ensures WordsOf(chunk)[t] == w[t]
    {
      WordAt(chunk, t);
    }
    forall t | n < t < 15
      ensures WordsOf(chunk)[t] == 0
    {
      WordAt(chunk, t);
    }
  }

  lemma DigestChunk(r: Registers)
    ensures WordsOf(LastChunk(Digest(r))) == DigestWords(r)
  {
    hide WordOf, WordsOf, LastChunk, Digest, Begins, BigEndian;
    Lengths();
    DigestBegins(r);
    LastWords(Digest(r), [r.a, r.b, r.c, r.d, r.e], 0xa0);
    PaddingWords();
    var ws := WordsOf(LastChunk(Digest(r)));
    assert ws[..5] == [r.a, r.b, r.c, r.d, r.e];
    assert ws[0] == ws[..5][0] && ws[1] == ws[..5][1] && ws[2] == ws[..5][2] && ws[3] == ws[..5][3] && ws[4] == ws[..5][4];
  }

  lemma PaddingWords()
    ensures WordOf(0x80, 0, 0, 0) == 0x80000000 && WordOf(0, 0, 0, 0) == 0
    ensures WordOf(0, 0, 0x02, 0xa0) == 0x000002a0 && WordOf(0, 0, 0x02, 0x40) == 0x00000240
  {
  }

  // The example.

  const PASSWORD: bytes := [0x70, 0x61, 0x73, 0x73, 0x77, 0x6f, 0x72, 0x64]
  const SALT: bytes := [0x73, 0x61, 0x6c, 0x74]

  lemma SaltChunk()
    ensures WordsOf(LastChunk(SALT + BigEndian(1, 4))) == InnerFirstWords()
  {
    hide WordOf, WordsOf, LastChunk, BigEndian;
    Lengths();
    PaddingWords();
    SaltWords();
    var m := [0x73, 0x61, 0x6c, 0x74, 0x00, 0x00, 0x00, 0x01];
    assert SALT + BigEndian(1, 4) == m;
    LastWords(m, [0x73616c74, 1], 0x40);
    var ws := WordsOf(LastChunk(m));
    assert ws[..2] == [0x73616c74, 1];
    assert ws[0] == ws[..2][0] && ws[1] == ws[..2][1];
  }

  lemma SaltWords()
    ensures WordOf(0x73, 0x61, 0x6c, 0x74) == 0x73616c74 && WordOf(0, 0, 0, 1) == 1
  {
  }

  lemma KeyAt(pad: bv8)
    ensures var k := Pad64(BlockKey(PASSWORD), pad);
      (forall i :: 0 <= i < 8 ==> k[i] == PASSWORD[i] ^ pad) && forall i :: 8 <= i < 64 ==> k[i] == 0 ^ pad
  {
    assert BlockKey(PASSWORD) == PASSWORD + Zeros(56);
  }

  lemma InnerKeyChunk()
    ensures WordsOf(Pad64(BlockKey(PASSWORD), 0x36)) == InnerKeyWords()
  {
    hide WordOf, Pad64, BlockKey;
    KeyAt(0x36);
    InnerKeyBytes();
    var chunk := Pad64(BlockKey(PASSWORD), 0x36);
    forall t | 0 <= t < 16
      ensures WordsOf(chunk)[t] == InnerKeyWords()[t]
    {
      WordAt(chunk, t);
    }
  }

  lemma InnerKeyBytes()
    ensures WordOf(PASSWORD[0] ^ 0x36, PASSWORD[1] ^ 0x36, PASSWORD[2] ^ 0x36, PASSWORD[3] ^ 0x36) == 0x46574545
    ensures WordOf(PASSWORD[4] ^ 0x36, PASSWORD[5] ^ 0x36, PASSWORD[6] ^ 0x36, PASSWORD[7] ^ 0x36) == 0x41594452
    ensures WordOf(0 ^ 0x36, 0 ^ 0x36, 0 ^ 0x36, 0 ^ 0x36) == 0x36363636
  {
  }

  lemma OuterKeyChunk()
    ensures WordsOf(Pad64(BlockKey(PASSWORD), 0x5c)) == OuterKeyWords()
  {
    hide WordOf, Pad64, BlockKey;
    KeyAt(0x5c);
    OuterKeyBytes();
    var chunk := Pad64(BlockKey(PASSWORD), 0x5c);
    forall t | 0 <= t < 16
      ensures WordsOf(chunk)[t] == OuterKeyWords()[t]
    {
      WordAt(chunk, t);
    }
  }

  lemma OuterKeyBytes()
    ensures WordOf(PASSWORD[0] ^ 0x5c, PASSWORD[1] ^ 0x5c, PASSWORD[2] ^ 0x5c, PASSWORD[3] ^ 0x5c) == 0x2c3d2f2f
    ensures WordOf(PASSWORD[4] ^ 0x5c, PASSWORD[5] ^ 0x5c, PASSWORD[6] ^ 0x5c, PASSWORD[7] ^ 0x5c) == 0x2b332e38
    ensures WordOf(0 ^ 0x5c, 0 ^ 0x5c, 0 ^ 0x5c, 0 ^ 0x5c) == 0x5c5c5c5c
  {
  }

  lemma KeyStates()
    ensures Compress(INITIAL, Pad64(BlockKey(PASSWORD), 0x36)) == Registers(0x084eb10f, 0x7f3bc5b8, 0x5b6b0b41, 0x4ed50043, 0xffe71f45)
    ensures Compress(INITIAL, Pad64(BlockKey(PASSWORD), 0x5c)) == Registers(0xf0bb8fe5, 0xb5a3bda6, 0x9e9ead99, 0xab1f903a, 0x885e1e9f)
  {
    hide Rounds, WordsOf, Pad64, BlockKey, Sum, InnerKeyWords, OuterKeyWords;
    InnerKeyChunk();
    OuterKeyChunk();
    InnerKeyRounds(INITIAL, InnerKeyWords());
    OuterKeyRounds(INITIAL, OuterKeyWords());
  }

  lemma HmacIs(m: bytes)
    requires |m| <= 55
    ensures Hmac(PASSWORD, m) == Digest(Compress(Registers(0xf0bb8fe5, 0xb5a3bda6, 0x9e9ead99, 0xab1f903a, 0x885e1e9f),
            LastChunk(Digest(Compress(Registers(0x084eb10f, 0x7f3bc5b8, 0x5b6b0b41, 0x4ed50043, 0xffe71f45), LastChunk(m))))))
  {
    hide Compress, Digest, Sha1Digest, LastChunk, Pad64, BlockKey;
    KeyStates();
    TwoChunks(Pad64(BlockKey(PASSWORD), 0x36), m);
    var inner := Sha1Digest(Pad64(BlockKey(PASSWORD), 0x36) + m);
    TwoChunks(Pad64(BlockKey(PASSWORD), 0x5c), inner);
  }

  lemma FirstResult()
    ensures U(PASSWORD, SALT, 1, 1) == Digest(Registers(0x0c60c80f, 0x961f0e71, 0xf3a9b524, 0xaf601206, 0x2fe037a6))
  {
    hide Hmac, Digest, Rounds, WordsOf, LastChunk, Sum, BigEndian, InnerFirstWords, OuterFirstWords;
    var m := SALT + BigEndian(1, 4);
    HmacIs(m);
    SaltChunk();
    InnerFirstRounds(Registers(0x084eb10f, 0x7f3bc5b8, 0x5b6b0b41, 0x4ed50043, 0xffe71f45), InnerFirstWords());
    var r := Registers(0x19a5f832, 0x15b595ef, 0x9cdfccfb, 0x3a8cc278, 0xe55b8576);
    DigestChunk(r);
    assert DigestWords(r) == OuterFirstWords() by { OuterFirstIs(); }
    OuterFirstRounds(Registers(0xf0bb8fe5, 0xb5a3bda6, 0x9e9ead99, 0xab1f903a, 0x885e1e9f), OuterFirstWords());
  }

  lemma OuterFirstIs()
    ensures DigestWords(Registers(0x19a5f832, 0x15b595ef, 0x9cdfccfb, 0x3a8cc278, 0xe55b8576)) == OuterFirstWords()
  {
  }

  lemma SecondResult()
    ensures U(PASSWORD, SALT, 1, 2) == Digest(Registers(0xe60cc942, 0x513261fd, 0x3eb76c0e, 0x617d53f6, 0xf73ebef1))
  {
    hide Hmac, Digest, Rounds, WordsOf, LastChunk, Sum, BigEndian, InnerSecondWords, OuterSecondWords;
    FirstResult();
    var u := Registers(0x0c60c80f, 0x961f0e71, 0xf3a9b524, 0xaf601206, 0x2fe037a6);
    HmacIs(Digest(u));
    DigestChunk(u);
    assert DigestWords(u) == InnerSecondWords() by { SecondAre(); }
    InnerSecondRounds(Registers(0x084eb10f, 0x7f3bc5b8, 0x5b6b0b41, 0x4ed50043, 0xffe71f45), InnerSecondWords());
    var r := Registers(0xe68666aa, 0x9b5c90a5, 0xf1deb44a, 0xb7f9f4e4, 0x079e4fdc);
    DigestChunk(r);
    assert DigestWords(r) == OuterSecondWords() by { SecondAre(); }
    OuterSecondRounds(Registers(0xf0bb8fe5, 0xb5a3bda6, 0x9e9ead99, 0xab1f903a, 0x885e1e9f), OuterSecondWords());
  }

  lemma SecondAre()
    ensures DigestWords(Registers(0x0c60c80f, 0x961f0e71, 0xf3a9b524, 0xaf601206, 0x2fe037a6)) == InnerSecondWords()
    ensures DigestWords(Registers(0xe68666aa, 0x9b5c90a5, 0xf1deb44a, 0xb7f9f4e4, 0x079e4fdc)) == OuterSecondWords()
  {
  }

  /** RFC 6070, the second example. */
  lemma Pbkdf2Of()
    ensures T(PASSWORD, SALT, 1, 2)
         == [0xea, 0x6c, 0x01, 0x4d, 0xc7, 0x2d, 0x6f, 0x8c, 0xcd, 0x1e, 0xd9, 0x2a, 0xce, 0x1d, 0x41, 0xf0, 0xd8, 0xde, 0x89, 0x57]
  {
    hide U, Digest;
    FirstResult();
    SecondResult();
    LastXor();
  }

  lemma XorConcat(a: bytes, b: bytes, c: bytes, d: bytes)
    requires |a| == |c| && |b| == |d|
    ensures Xor(a + b, c + d) == Xor(a, c) + Xor(b, d)
  {
  }

  lemma XorDigests(r: Registers, s: Registers)
    ensures Xor(Digest(r), Digest(s))
         == Xor(BytesOf(r.a), BytesOf(s.a)) + Xor(BytesOf(r.b), BytesOf(s.b)) + Xor(BytesOf(r.c), BytesOf(s.c))
            + Xor(BytesOf(r.d), BytesOf(s.d)) + Xor(BytesOf(r.e), BytesOf(s.e))
  {
    hide BytesOf, Xor;
    var p, q := BytesOf(r.a) + BytesOf(r.b), BytesOf(s.a) + BytesOf(s.b);
    XorConcat(BytesOf(r.a), BytesOf(r.b), BytesOf(s.a), BytesOf(s.b));
    XorConcat(p, BytesOf(r.c), q, BytesOf(s.c));
    XorConcat(p + BytesOf(r.c), BytesOf(r.d), q + BytesOf(s.c), BytesOf(s.d));
    XorConcat(p + BytesOf(r.c) + BytesOf(r.d), BytesOf(r.e), q + BytesOf(s.c) + BytesOf(s.d), BytesOf(s.e));
  }

  lemma LastXor()
    ensures Xor(Digest(Registers(0x0c60c80f, 0x961f0e71, 0xf3a9b524, 0xaf601206, 0x2fe037a6)), Digest(Registers(0xe60cc942, 0x513261fd, 0x3eb76c0e, 0x617d53f6, 0xf73ebef1)))
         == [0xea, 0x6c, 0x01, 0x4d, 0xc7, 0x2d, 0x6f, 0x8c, 0xcd, 0x1e, 0xd9, 0x2a, 0xce, 0x1d, 0x41, 0xf0, 0xd8, 0xde, 0x89, 0x57]
  {
    hide BytesOf, Xor, Digest;
    XorDigests(Registers(0x0c60c80f, 0x961f0e71, 0xf3a9b524, 0xaf601206, 0x2fe037a6), Registers(0xe60cc942, 0x513261fd, 0x3eb76c0e, 0x617d53f6, 0xf73ebef1));
    FirstBytes();
    SecondBytes();
    Sums();
  }

  lemma XorFour(a: bytes, b: bytes, c: bytes)
    requires |a| == |b| == |c| == 4
      && a[0] ^ b[0] == c[0] && a[1] ^ b[1] == c[1] && a[2] ^ b[2] == c[2] && a[3] ^ b[3] == c[3]
    ensures Xor(a, b) == c
  {
  }

  lemma Sums()
    ensures Xor([0x0c, 0x60, 0xc8, 0x0f], [0xe6, 0x0c, 0xc9, 0x42]) == [0xea, 0x6c, 0x01, 0x4d]
    ensures Xor([0x96, 0x1f, 0x0e, 0x71], [0x51, 0x32, 0x61, 0xfd]) == [0xc7, 0x2d, 0x6f, 0x8c]
    ensures Xor([0xf3, 0xa9, 0xb5, 0x24], [0x3e, 0xb7, 0x6c, 0x0e]) == [0xcd, 0x1e, 0xd9, 0x2a]
    ensures Xor([0xaf, 0x60, 0x12, 0x06], [0x61, 0x7d, 0x53, 0xf6]) == [0xce, 0x1d, 0x41, 0xf0]
    ensures Xor([0x2f, 0xe0, 0x37, 0xa6], [0xf7, 0x3e, 0xbe, 0xf1]) == [0xd8, 0xde, 0x89, 0x57]
  {
    hide Xor;
    XorFour([0x0c, 0x60, 0xc8, 0x0f], [0xe6, 0x0c, 0xc9, 0x42], [0xea, 0x6c, 0x01, 0x4d]);
    XorFour([0x96, 0x1f, 0x0e, 0x71], [0x51, 0x32, 0x61, 0xfd], [0xc7, 0x2d, 0x6f, 0x8c]);
    XorFour([0xf3, 0xa9, 0xb5, 0x24], [0x3e, 0xb7, 0x6c, 0x0e], [0xcd, 0x1e, 0xd9, 0x2a]);
    XorFour([0xaf, 0x60, 0x12, 0x06], [0x61, 0x7d, 0x53, 0xf6], [0xce, 0x1d, 0x41, 0xf0]);
    XorFour([0x2f, 0xe0, 0x37, 0xa6], [0xf7, 0x3e, 0xbe, 0xf1], [0xd8, 0xde, 0x89, 0x57]);
  }

  lemma FirstBytes()
    ensures BytesOf(0x0c60c80f) == [0x0c, 0x60, 0xc8, 0x0f]
    ensures BytesOf(0x961f0e71) == [0x96, 0x1f, 0x0e, 0x71]
    ensures BytesOf(0xf3a9b524) == [0xf3, 0xa9, 0xb5, 0x24]
    ensures BytesOf(0xaf601206) == [0xaf, 0x60, 0x12, 0x06]
    ensures BytesOf(0x2fe037a6) == [0x2f, 0xe0, 0x37, 0xa6]
  {
  }

  lemma SecondBytes()
    ensures BytesOf(0xe60cc942) == [0xe6, 0x0c, 0xc9, 0x42]
    ensures BytesOf(0x513261fd) == [0x51, 0x32, 0x61, 0xfd]
    ensures BytesOf(0x3eb76c0e) == [0x3e, 0xb7, 0x6c, 0x0e]
    ensures BytesOf(0x617d53f6) == [0x61, 0x7d, 0x53, 0xf6]
    ensures BytesOf(0xf73ebef1) == [0xf7, 0x3e, 0xbe, 0xf1]
  {
  }
}
