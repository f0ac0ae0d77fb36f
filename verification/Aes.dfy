/** Arithmetic in GF(2^8) and the AES S-boxes, section 4.2 and section 5.1.1 of FIPS 197. */
module GaloisField {

  function Xtime(x: bv8): bv8 {
    (x << 1) ^ (if x & 0x80 != 0 then 0x1b else 0)
  }

  function Term(x: bv8, y: bv8, bit: bv8): bv8 {
    if y & bit != 0 then x else 0
  }

  function Sum8(t0: bv8, t1: bv8, t2: bv8, t3: bv8, t4: bv8, t5: bv8, t6: bv8, t7: bv8): bv8 {
    t0 ^ t1 ^ t2 ^ t3 ^ t4 ^ t5 ^ t6 ^ t7
  }

  /** The product of two field elements: the sum of x * 2^i over the bits i of y. */
  function Mul(x: bv8, y: bv8): bv8 {
    var x1 := Xtime(x);
    var x2 := Xtime(x1);
    var x3 := Xtime(x2);
    var x4 := Xtime(x3);
    var x5 := Xtime(x4);
    var x6 := Xtime(x5);
    var x7 := Xtime(x6);
    Sum8(Term(x, y, 0x01), Term(x1, y, 0x02), Term(x2, y, 0x04), Term(x3, y, 0x08),
         Term(x4, y, 0x10), Term(x5, y, 0x20), Term(x6, y, 0x40), Term(x7, y, 0x80))
  }

  lemma TermShift(x: bv8, y: bv8, bit: bv8)
    requires bit & 0x80 == 0
    ensures Term(x, y >> 1, bit) == Term(x, y, bit << 1)
  {
    assert ((y >> 1) & bit != 0) == (y & (bit << 1) != 0);
  }

  lemma TermTop(x: bv8, y: bv8)
    ensures Term(x, y >> 1, 0x80) == 0
  {
  }

  lemma Regroup(t0: bv8, t1: bv8, t2: bv8, t3: bv8, t4: bv8, t5: bv8, t6: bv8, t7: bv8)
    ensures Sum8(t0, t1, t2, t3, t4, t5, t6, t7) == t0 ^ Sum8(t1, t2, t3, t4, t5, t6, t7, 0)
  {
  }

  lemma MulStep(x: bv8, y: bv8)
    ensures Mul(x, y) == Term(x, y, 1) ^ Mul(Xtime(x), y >> 1)
  {
    hide Xtime, Term, Sum8;
    var x1 := Xtime(x);
    var x2 := Xtime(x1);
    var x3 := Xtime(x2);
    var x4 := Xtime(x3);
    var x5 := Xtime(x4);
    var x6 := Xtime(x5);
    var x7 := Xtime(x6);
    TermShift(x1, y, 0x01);
    TermShift(x2, y, 0x02);
    TermShift(x3, y, 0x04);
    TermShift(x4, y, 0x08);
    TermShift(x5, y, 0x10);
    TermShift(x6, y, 0x20);
    TermShift(x7, y, 0x40);
    TermTop(Xtime(x7), y);
    Regroup(Term(x, y, 0x01), Term(x1, y, 0x02), Term(x2, y, 0x04), Term(x3, y, 0x08),
            Term(x4, y, 0x10), Term(x5, y, 0x20), Term(x6, y, 0x40), Term(x7, y, 0x80));
  }

  lemma MulZero(x: bv8)
    ensures Mul(x, 0) == 0
  {
  }

  /** The shift-and-add product, looping over the bits of y. */
  method AesMul(x0: bv8, y0: bv8) returns (r: bv8)
    ensures r == Mul(x0, y0)
  {
    hide Mul, Xtime;
    r := 0;
    var x, y := x0, y0;
    while y != 0
      invariant r ^ Mul(x, y) == Mul(x0, y0)
      decreases y
    {
      MulStep(x, y);
      if y & 1 != 0 {
        r := r ^ x;
      }
      x := Xtime(x);
      y := y >> 1;
    }
    MulZero(x);
  }

  lemma XtimeLinear(a: bv8, b: bv8)
    ensures Xtime(a ^ b) == Xtime(a) ^ Xtime(b)
  {
    if a & 0x80 == 0 {
      if b & 0x80 == 0 { assert (a ^ b) & 0x80 == 0; } else { assert (a ^ b) & 0x80 != 0; }
    } else {
      if b & 0x80 == 0 { assert (a ^ b) & 0x80 != 0; } else { assert (a ^ b) & 0x80 == 0; }
    }
  }

  function Rotate(b: bv8, n: bv4): bv8
    requires n <= 8
  {
    (b << n) | (b >> (8 - n))
  }

  /** The affine transformation of section 5.1.1 of FIPS 197, and its inverse. */
  function Affine(b: bv8): bv8 {
    b ^ Rotate(b, 4) ^ Rotate(b, 3) ^ Rotate(b, 2) ^ Rotate(b, 1) ^ 0x63
  }

  function InvAffine(b: bv8): bv8 {
    Rotate(b, 1) ^ Rotate(b, 3) ^ Rotate(b, 6) ^ 0x05
  }

  // The two tables, one 16-byte row for each high nibble.
  function SboxRow(hi: bv8): bv128 {
    if hi == 0 then 0x637c777bf26b6fc53001672bfed7ab76
    else if hi == 1 then 0xca82c97dfa5947f0add4a2af9ca472c0
    else if hi == 2 then 0xb7fd9326363ff7cc34a5e5f171d83115
    else if hi == 3 then 0x04c723c31896059a071280e2eb27b275
    else if hi == 4 then 0x09832c1a1b6e5aa0523bd6b329e32f84
    else if hi == 5 then 0x53d100ed20fcb15b6acbbe394a4c58cf
    else if hi == 6 then 0xd0efaafb434d338545f9027f503c9fa8
    else if hi == 7 then 0x51a3408f929d38f5bcb6da2110fff3d2
    else if hi == 8 then 0xcd0c13ec5f974417c4a77e3d645d1973
    else if hi == 9 then 0x60814fdc222a908846eeb814de5e0bdb
    else if hi == 10 then 0xe0323a0a4906245cc2d3ac629195e479
    else if hi == 11 then 0xe7c8376d8dd54ea96c56f4ea657aae08
    else if hi == 12 then 0xba78252e1ca6b4c6e8dd741f4bbd8b8a
    else if hi == 13 then 0x703eb5664803f60e613557b986c11d9e
    else if hi == 14 then 0xe1f8981169d98e949b1e87e9ce5528df
    else 0x8ca1890dbfe6426841992d0fb054bb16
  }

  function RsboxRow(hi: bv8): bv128 {
    if hi == 0 then 0x52096ad53036a538bf40a39e81f3d7fb
    else if hi == 1 then 0x7ce339829b2fff87348e4344c4dee9cb
    else if hi == 2 then 0x547b9432a6c2233dee4c950b42fac34e
    else if hi == 3 then 0x082ea16628d924b2765ba2496d8bd125
    else if hi == 4 then 0x72f8f66486689816d4a45ccc5d65b692
    else if hi == 5 then 0x6c704850fdedb9da5e154657a78d9d84
    else if hi == 6 then 0x90d8ab008cbcd30af7e45805b8b34506
    else if hi == 7 then 0xd02c1e8fca3f0f02c1afbd0301138a6b
    else if hi == 8 then 0x3a9111414f67dcea97f2cfcef0b4e673
    else if hi == 9 then 0x96ac7422e7ad3585e2f937e81c75df6e
    else if hi == 10 then 0x47f11a711d29c5896fb7620eaa18be1b
    else if hi == 11 then 0xfc563e4bc6d279209adbc0fe78cd5af4
    else if hi == 12 then 0x1fdda8338807c731b11210592780ec5f
    else if hi == 13 then 0x60517fa919b54a0d2de57a9f93c99cef
    else if hi == 14 then 0xa0e03b4dae2af5b0c8ebbb3c83539961
    else 0x172b047eba77d626e169146355210c7d
  }

  function Lookup(row: bv128, lo: bv8): bv8 {
    ((row >> ((15 - (lo & 15)) << 3)) & 0xff) as bv8
  }

  function Sbox(x: bv8): bv8 {
    Lookup(SboxRow(x >> 4), x & 15)
  }

  function Rsbox(x: bv8): bv8 {
    Lookup(RsboxRow(x >> 4), x & 15)
  }

  lemma RsboxSboxLow(x: bv8)
    requires x < 0x80
    ensures Rsbox(Sbox(x)) == x
  {
  }

  lemma RsboxSboxHigh(x: bv8)
    requires x >= 0x80
    ensures Rsbox(Sbox(x)) == x
  {
  }

  lemma SboxRsboxLow(x: bv8)
    requires x < 0x80
    ensures Sbox(Rsbox(x)) == x
  {
  }

  lemma SboxRsboxHigh(x: bv8)
    requires x >= 0x80
    ensures Sbox(Rsbox(x)) == x
  {
  }

  /** Each table inverts the other. */
  lemma SboxesInverse(x: bv8)
    ensures Rsbox(Sbox(x)) == x
    ensures Sbox(Rsbox(x)) == x
  {
    if x < 0x80 {
      RsboxSboxLow(x);
      SboxRsboxLow(x);
    } else {
      RsboxSboxHigh(x);
      SboxRsboxHigh(x);
    }
  }

  lemma AffineInverse(b: bv8)
    ensures Affine(InvAffine(b)) == b
  {
  }

  /** The inverse affine image of the table entry is the inverse of the element. */
  predicate EntryInverts(x: bv8) {
    Mul(x, InvAffine(Sbox(x))) == 1
  }

  // One row of the table at a time.

  lemma InverseRow0(x: bv8)
    requires 0 < x < 0x10
    ensures EntryInverts(x)
  {
  }

  lemma InverseRow1(x: bv8)
    requires x >> 4 == 1
    ensures EntryInverts(x)
  {
  }

  lemma InverseRow2(x: bv8)
    requires x >> 4 == 2
    ensures EntryInverts(x)
  {
  }

  lemma InverseRow3(x: bv8)
    requires x >> 4 == 3
    ensures EntryInverts(x)
  {
  }

  lemma InverseRow4(x: bv8)
    requires x >> 4 == 4
    ensures EntryInverts(x)
  {
  }

  lemma InverseRow5(x: bv8)
    requires x >> 4 == 5
    ensures EntryInverts(x)
  {
  }

  lemma InverseRow6(x: bv8)
    requires x >> 4 == 6
    ensures EntryInverts(x)
  {
  }

  lemma InverseRow7(x: bv8)
    requires x >> 4 == 7
    ensures EntryInverts(x)
  {
  }

  lemma InverseRow8(x: bv8)
    requires x >> 4 == 8
    ensures EntryInverts(x)
  {
  }

  lemma InverseRow9(x: bv8)
    requires x >> 4 == 9
    ensures EntryInverts(x)
  {
  }

  lemma InverseRow10(x: bv8)
    requires x >> 4 == 10
    ensures EntryInverts(x)
  {
  }

  lemma InverseRow11(x: bv8)
    requires x >> 4 == 11
    ensures EntryInverts(x)
  {
  }

  lemma InverseRow12(x: bv8)
    requires x >> 4 == 12
    ensures EntryInverts(x)
  {
  }

  lemma InverseRow13(x: bv8)
    requires x >> 4 == 13
    ensures EntryInverts(x)
  {
  }

  lemma InverseRow14(x: bv8)
    requires x >> 4 == 14
    ensures EntryInverts(x)
  {
  }

  lemma InverseRow15(x: bv8)
    requires x >> 4 == 15
    ensures EntryInverts(x)
  {
  }

  lemma SboxInverseElement(x: bv8)
    requires x != 0
    ensures EntryInverts(x)
  {
    hide EntryInverts;
    var row := x >> 4;
    if row == 0 {
      InverseRow0(x);
    } else if row == 1 {
      InverseRow1(x);
    } else if row == 2 {
      InverseRow2(x);
    } else if row == 3 {
      InverseRow3(x);
    } else if row == 4 {
      InverseRow4(x);
    } else if row == 5 {
      InverseRow5(x);
    } else if row == 6 {
      InverseRow6(x);
    } else if row == 7 {
      InverseRow7(x);
    } else if row == 8 {
      InverseRow8(x);
    } else if row == 9 {
      InverseRow9(x);
    } else if row == 10 {
      InverseRow10(x);
    } else if row == 11 {
      InverseRow11(x);
    } else if row == 12 {
      InverseRow12(x);
    } else if row == 13 {
      InverseRow13(x);
    } else if row == 14 {
      InverseRow14(x);
    } else {
      InverseRow15(x);
    }
  }

  /** The table is the S-box of FIPS 197: the affine image of the field inverse (0 maps to itself). */
  lemma SboxIsFips197(x: bv8) returns (inverse: bv8)
    ensures if x == 0 then inverse == 0 else Mul(x, inverse) == 1
    ensures Sbox(x) == Affine(inverse)
  {
    inverse := InvAffine(Sbox(x));
    AffineInverse(Sbox(x));
    if x != 0 {
      SboxInverseElement(x);
    }
  }

  function Add(a: bv8, b: bv8): bv8 {
    a ^ b
  }

  lemma XtimeAdd(a: bv8, b: bv8)
    ensures Xtime(Add(a, b)) == Add(Xtime(a), Xtime(b))
  {
    XtimeLinear(a, b);
  }

  lemma MulOdd(x: bv8, y: bv8)
    requires y & 1 == 1
    ensures Mul(x, y) == Add(x, Mul(Xtime(x), y >> 1))
  {
    hide Mul, Xtime;
    MulStep(x, y);
  }

  lemma MulEven(x: bv8, y: bv8)
    requires y & 1 == 0
    ensures Mul(x, y) == Mul(Xtime(x), y >> 1)
  {
    hide Mul, Xtime;
    MulStep(x, y);
  }

  lemma MulOne(x: bv8)
    ensures Mul(x, 1) == x
  {
    hide Mul, Xtime;
    MulOdd(x, 1);
    MulZero(Xtime(x));
  }

  /** Every product the column mixing uses, as a sum of repeated Xtime. */
  lemma MulConstants(x: bv8)
    ensures Mul(x, 0x02) == Xtime(x)
    ensures Mul(x, 0x03) == Add(x, Xtime(x))
    ensures Mul(x, 0x09) == Add(x, Xtime(Xtime(Xtime(x))))
    ensures Mul(x, 0x0b) == Add(x, Add(Xtime(x), Xtime(Xtime(Xtime(x)))))
    ensures Mul(x, 0x0d) == Add(x, Add(Xtime(Xtime(x)), Xtime(Xtime(Xtime(x)))))
    ensures Mul(x, 0x0e) == Add(Xtime(x), Add(Xtime(Xtime(x)), Xtime(Xtime(Xtime(x)))))
  {
    hide Mul, Xtime, Add;
    var x1 := Xtime(x);
    var x2 := Xtime(x1);
    var x3 := Xtime(x2);
    MulOne(x1);
    MulOne(x3);
    MulEven(x2, 2);
    MulOdd(x2, 3);
    MulEven(x1, 4);
    MulOdd(x1, 5);
    MulEven(x1, 6);
    MulOdd(x1, 7);
    MulEven(x, 0x02);
    MulOdd(x, 0x03);
    MulOdd(x, 0x09);
    MulOdd(x, 0x0b);
    MulOdd(x, 0x0d);
    MulEven(x, 0x0e);
  }

  function MixByte(a: bv8, b: bv8, c: bv8, d: bv8): bv8 {
    Mul(a, 2) ^ Mul(b, 3) ^ c ^ d
  }

  function InvMixByte(a: bv8, b: bv8, c: bv8, d: bv8): bv8 {
    Mul(a, 0x0e) ^ Mul(b, 0x0b) ^ Mul(c, 0x0d) ^ Mul(d, 0x09)
  }

  lemma MixForm(a: bv8, b: bv8, c: bv8, d: bv8)
    ensures MixByte(a, b, c, d) == Add(Add(Xtime(a), Add(b, Xtime(b))), Add(c, d))
  {
    hide Mul, Xtime;
    MulConstants(a);
    MulConstants(b);
  }

  // MixColumns applied twice adds 4 * (a + c) to a; doing that twice does nothing.
  function Fold(a: bv8, c: bv8): bv8 {
    Add(a, Xtime(Xtime(Add(a, c))))
  }

  lemma FoldTwice(a: bv8, c: bv8)
    ensures Fold(Fold(a, c), Fold(c, a)) == a
  {
    hide Xtime, Add;
    AddFacts(a, c, Xtime(Xtime(Add(a, c))));
  }

  lemma AddFacts(a: bv8, c: bv8, u: bv8)
    ensures Add(a, c) == Add(c, a)
    ensures Add(Add(a, u), Add(c, u)) == Add(a, c)
    ensures Add(Add(a, u), u) == a
  {
  }

  lemma MixTwice(a: bv8, b: bv8, c: bv8, d: bv8)
    ensures MixByte(MixByte(a, b, c, d), MixByte(b, c, d, a), MixByte(c, d, a, b), MixByte(d, a, b, c)) == Fold(a, c)
  {
    hide Xtime, Mul, Add, MixByte;
    var m0, m1, m2, m3 := MixByte(a, b, c, d), MixByte(b, c, d, a), MixByte(c, d, a, b), MixByte(d, a, b, c);
    MixForm(a, b, c, d);
    MixForm(b, c, d, a);
    MixForm(c, d, a, b);
    MixForm(d, a, b, c);
    MixForm(m0, m1, m2, m3);
    MixSums(a, b, c, d, Xtime(a), Xtime(b), Xtime(c), Xtime(d));
    var s, t := Add(Xtime(a), Xtime(c)), Add(a, b);
    assert Add(m0, m1) == Add(s, t);
    XtimeAdd(m0, m1);
    XtimeAdd(s, t);
    XtimeAdd(a, b);
    XtimeAdd(a, c);
    MixTwiceSum(a, Xtime(a), Xtime(b), Xtime(Xtime(Add(a, c))), Xtime(m0), Xtime(m1), m1, m2, m3);
  }

  lemma AddIs(p: bv8, q: bv8)
    ensures Add(p, q) == p ^ q
  {
  }

  lemma AddSum(p: bv8, q: bv8, r: bv8, s: bv8, t: bv8, qr: bv8, pqr: bv8, st: bv8, sum: bv8)
    requires qr == q ^ r && pqr == p ^ qr && st == s ^ t && sum == pqr ^ st
    ensures sum == p ^ q ^ r ^ s ^ t
  {
  }

  lemma Add5(p: bv8, q: bv8, r: bv8, s: bv8, t: bv8)
    ensures Add(Add(p, Add(q, r)), Add(s, t)) == p ^ q ^ r ^ s ^ t
  {
    hide Add;
    var qr, st := Add(q, r), Add(s, t);
    var pqr := Add(p, qr);
    AddIs(q, r);
    AddIs(p, qr);
    AddIs(s, t);
    AddIs(pqr, st);
    AddSum(p, q, r, s, t, qr, pqr, st, Add(pqr, st));
  }

  lemma MixSums(a: bv8, b: bv8, c: bv8, d: bv8, ta: bv8, tb: bv8, tc: bv8, td: bv8)
    ensures Add(Add(Add(ta, Add(b, tb)), Add(c, d)), Add(Add(tb, Add(c, tc)), Add(d, a))) == Add(Add(ta, tc), Add(a, b))
    ensures Add(Add(Add(Add(tb, Add(c, tc)), Add(d, a)), Add(Add(tc, Add(d, td)), Add(a, b))),
                Add(Add(td, Add(a, ta)), Add(b, c))) == Add(a, Add(ta, tb))
  {
    hide Add;
    var m0 := Add(Add(ta, Add(b, tb)), Add(c, d));
    var m1 := Add(Add(tb, Add(c, tc)), Add(d, a));
    var m2 := Add(Add(tc, Add(d, td)), Add(a, b));
    var m3 := Add(Add(td, Add(a, ta)), Add(b, c));
    Add5(ta, b, tb, c, d);
    Add5(tb, c, tc, d, a);
    Add5(tc, d, td, a, b);
    Add5(td, a, ta, b, c);
    AddIs(m0, m1);
    AddIs(m1, m2);
    AddIs(Add(m1, m2), m3);
    AddIs(ta, tc);
    AddIs(a, b);
    AddIs(Add(ta, tc), Add(a, b));
    AddIs(ta, tb);
    AddIs(a, Add(ta, tb));
    MixXors(a, b, c, d, ta, tb, tc, td, m0, m1, m2, m3, Add(ta, tc), Add(a, b), Add(ta, tb),
            Add(m0, m1), Add(m1, m2), Add(Add(m1, m2), m3), Add(Add(ta, tc), Add(a, b)), Add(a, Add(ta, tb)));
  }

  lemma MixXors(a: bv8, b: bv8, c: bv8, d: bv8, ta: bv8, tb: bv8, tc: bv8, td: bv8, m0: bv8, m1: bv8, m2: bv8, m3: bv8,
                tac: bv8, ab: bv8, tab: bv8, m01: bv8, m12: bv8, m123: bv8, sum0: bv8, sum1: bv8)
    requires m0 == ta ^ b ^ tb ^ c ^ d && m1 == tb ^ c ^ tc ^ d ^ a && m2 == tc ^ d ^ td ^ a ^ b && m3 == td ^ a ^ ta ^ b ^ c
    requires tac == ta ^ tc && ab == a ^ b && tab == ta ^ tb
    requires m01 == m0 ^ m1 && m12 == m1 ^ m2 && m123 == m12 ^ m3
    requires sum0 == tac ^ ab && sum1 == a ^ tab
    ensures m01 == sum0 && m123 == sum1
  {
  }

  lemma MixTwiceSum(a: bv8, ta: bv8, tb: bv8, t2: bv8, tm0: bv8, tm1: bv8, m1: bv8, m2: bv8, m3: bv8)
    requires Add(tm0, tm1) == Add(t2, Add(ta, tb))
    requires Add(Add(m1, m2), m3) == Add(a, Add(ta, tb))
    ensures Add(Add(tm0, Add(m1, tm1)), Add(m2, m3)) == Add(a, t2)
  {
    hide Add;
    var t := Add(ta, tb);
    AddIs(tm0, tm1);
    AddIs(t2, t);
    AddIs(m1, m2);
    AddIs(Add(m1, m2), m3);
    AddIs(a, t);
    AddIs(a, t2);
    Add5(tm0, m1, tm1, m2, m3);
    MixTwiceXors(a, t, t2, tm0, tm1, m1, m2, m3, Add(m1, m2), Add(a, t2), Add(Add(tm0, Add(m1, tm1)), Add(m2, m3)));
  }

  lemma MixTwiceXors(a: bv8, t: bv8, t2: bv8, tm0: bv8, tm1: bv8, m1: bv8, m2: bv8, m3: bv8, m12: bv8, at2: bv8, sum: bv8)
    requires tm0 ^ tm1 == t2 ^ t
    requires m12 == m1 ^ m2 && m12 ^ m3 == a ^ t
    requires at2 == a ^ t2 && sum == tm0 ^ m1 ^ tm1 ^ m2 ^ m3
    ensures sum == at2
  {
  }

  lemma InvMixIsMixOfFold(a: bv8, b: bv8, c: bv8, d: bv8)
    ensures InvMixByte(a, b, c, d) == MixByte(Fold(a, c), Fold(b, d), Fold(c, a), Fold(d, b))
  {
    hide Xtime, Mul, Add;
    hide MixByte, InvMixByte;
    var u, v := Xtime(Xtime(Add(a, c))), Xtime(Xtime(Add(b, d)));
    AddFacts(a, c, u);
    AddFacts(b, d, v);
    XtimeAdd(a, c);
    XtimeAdd(b, d);
    XtimeAdd(Xtime(a), Xtime(c));
    XtimeAdd(Xtime(b), Xtime(d));
    XtimeAdd(Xtime(Xtime(a)), Xtime(Xtime(c)));
    XtimeAdd(Xtime(Xtime(b)), Xtime(Xtime(d)));
    XtimeAdd(a, u);
    XtimeAdd(b, v);
    MixForm(Add(a, u), Add(b, v), Add(c, u), Add(d, v));
    InvMixForm(a, b, c, d);
    InvMixSum(a, b, c, d, Xtime(a), Xtime(b),
              Xtime(Xtime(a)), Xtime(Xtime(b)), Xtime(Xtime(c)), Xtime(Xtime(d)),
              Xtime(Xtime(Xtime(a))), Xtime(Xtime(Xtime(b))), Xtime(Xtime(Xtime(c))), Xtime(Xtime(Xtime(d))));
  }

  lemma InvMixForm(a: bv8, b: bv8, c: bv8, d: bv8)
    ensures InvMixByte(a, b, c, d)
         == Add(Add(Add(Xtime(a), Add(Xtime(Xtime(a)), Xtime(Xtime(Xtime(a))))),
                    Add(b, Add(Xtime(b), Xtime(Xtime(Xtime(b)))))),
                Add(Add(c, Add(Xtime(Xtime(c)), Xtime(Xtime(Xtime(c))))),
                    Add(d, Xtime(Xtime(Xtime(d))))))
  {
    hide Mul, Xtime;
    MulConstants(a);
    MulConstants(b);
    MulConstants(c);
    MulConstants(d);
  }

  lemma InvMixSum(a: bv8, b: bv8, c: bv8, d: bv8, ta: bv8, tb: bv8,
                  a2: bv8, b2: bv8, c2: bv8, d2: bv8, a3: bv8, b3: bv8, c3: bv8, d3: bv8)
    ensures Add(Add(Add(ta, Add(a2, a3)), Add(b, Add(tb, b3))), Add(Add(c, Add(c2, c3)), Add(d, d3)))
         == Add(Add(Add(ta, Add(a3, c3)), Add(Add(b, Add(b2, d2)), Add(tb, Add(b3, d3)))),
                Add(Add(c, Add(a2, c2)), Add(d, Add(b2, d2))))
  {
    hide Add;
    var p1, p2, p3, p4 := Add(ta, Add(a2, a3)), Add(b, Add(tb, b3)), Add(c, Add(c2, c3)), Add(d, d3);
    var q1, q2, q3 := Add(ta, Add(a3, c3)), Add(b, Add(b2, d2)), Add(tb, Add(b3, d3));
    var q4, q5 := Add(c, Add(a2, c2)), Add(d, Add(b2, d2));
    Add3(ta, a2, a3);
    Add3(b, tb, b3);
    Add3(c, c2, c3);
    AddIs(d, d3);
    Add3(ta, a3, c3);
    Add3(b, b2, d2);
    Add3(tb, b3, d3);
    Add3(c, a2, c2);
    Add3(d, b2, d2);
    AddIs(p1, p2);
    AddIs(p3, p4);
    AddIs(Add(p1, p2), Add(p3, p4));
    AddIs(q2, q3);
    AddIs(q1, Add(q2, q3));
    AddIs(q4, q5);
    AddIs(Add(q1, Add(q2, q3)), Add(q4, q5));
    InvMixXors(a, b, c, d, ta, tb, a2, b2, c2, d2, a3, b3, c3, d3, p1, p2, p3, p4, q1, q2, q3, q4, q5,
               Add(p1, p2), Add(p3, p4), Add(q2, q3), Add(q1, Add(q2, q3)), Add(q4, q5),
               Add(Add(p1, p2), Add(p3, p4)), Add(Add(q1, Add(q2, q3)), Add(q4, q5)));
  }

  lemma Add3(p: bv8, q: bv8, r: bv8)
    ensures Add(p, Add(q, r)) == p ^ q ^ r
  {
    assert Add(q, r) == q ^ r;
  }

  lemma InvMixXors(a: bv8, b: bv8, c: bv8, d: bv8, ta: bv8, tb: bv8,
                   a2: bv8, b2: bv8, c2: bv8, d2: bv8, a3: bv8, b3: bv8, c3: bv8, d3: bv8,
                   p1: bv8, p2: bv8, p3: bv8, p4: bv8, q1: bv8, q2: bv8, q3: bv8, q4: bv8, q5: bv8,
                   p12: bv8, p34: bv8, q23: bv8, q123: bv8, q45: bv8, left: bv8, right: bv8)
    requires p1 == ta ^ a2 ^ a3 && p2 == b ^ tb ^ b3 && p3 == c ^ c2 ^ c3 && p4 == d ^ d3
    requires q1 == ta ^ a3 ^ c3 && q2 == b ^ b2 ^ d2 && q3 == tb ^ b3 ^ d3 && q4 == c ^ a2 ^ c2 && q5 == d ^ b2 ^ d2
    requires p12 == p1 ^ p2 && p34 == p3 ^ p4 && left == p12 ^ p34
    requires q23 == q2 ^ q3 && q123 == q1 ^ q23 && q45 == q4 ^ q5 && right == q123 ^ q45
    ensures left == right
  {
  }

  /** The coefficients of InvMixColumns and MixColumns are inverse matrices over the field. */
  lemma MixInverse(a: bv8, b: bv8, c: bv8, d: bv8)
    ensures InvMixByte(MixByte(a, b, c, d), MixByte(b, c, d, a), MixByte(c, d, a, b), MixByte(d, a, b, c)) == a
    ensures MixByte(InvMixByte(a, b, c, d), InvMixByte(b, c, d, a), InvMixByte(c, d, a, b), InvMixByte(d, a, b, c)) == a
  {
    hide MixByte, InvMixByte, Fold;
    var m0, m1, m2, m3 := MixByte(a, b, c, d), MixByte(b, c, d, a), MixByte(c, d, a, b), MixByte(d, a, b, c);
    InvMixIsMixOfFold(m0, m1, m2, m3);
    MixTwice(m0, m1, m2, m3);
    MixTwice(m1, m2, m3, m0);
    MixTwice(m2, m3, m0, m1);
    MixTwice(m3, m0, m1, m2);
    MixTwice(a, b, c, d);
    MixTwice(b, c, d, a);
    MixTwice(c, d, a, b);
    MixTwice(d, a, b, c);
    MixTwice(Fold(a, c), Fold(b, d), Fold(c, a), Fold(d, b));
    InvMixIsMixOfFold(a, b, c, d);
    InvMixIsMixOfFold(b, c, d, a);
    InvMixIsMixOfFold(c, d, a, b);
    InvMixIsMixOfFold(d, a, b, c);
    FoldTwice(a, c);
  }
}

/** The AES-128 cipher and inverse cipher as FIPS 197 defines them. */
module AesSpec {
  import opened Bytes
  import opened GaloisField

  type Block = s: bytes | |s| == 16 witness Zeros(16)
  type Word = s: bytes | |s| == 4 witness Zeros(4)

  // Transformations of the state (section 5.1 and section 5.3), stored column by column.

  function SubBytes(s: Block): Block {
    seq(16, i requires 0 <= i < 16 => Sbox(s[i]))
  }

  function InvSubBytes(s: Block): Block {
    seq(16, i requires 0 <= i < 16 => Rsbox(s[i]))
  }

  type Index = i: nat | i < 16

  /** The position n columns to the right of i in its row, wrapping round. */
  function Right(i: Index, n: nat): Index
    requires n <= 4
  {
    if i + 4 * n < 16 then i + 4 * n else i + 4 * n - 16
  }

  /** Row r of the state moves r columns to the left. */
  function ShiftRows(s: Block): Block {
    seq(16, i requires 0 <= i < 16 => s[Right(i, i % 4)])
  }

  function InvShiftRows(s: Block): Block {
    seq(16, i requires 0 <= i < 16 => s[Right(i, 4 - i % 4)])
  }

  /** The position k rows below i in its column, wrapping round. */
  function Below(i: Index, k: nat): Index
    requires k < 8
  {
    if i % 4 + k < 4 then i + k else if i % 4 + k < 8 then i + k - 4 else i + k - 8
  }

  function InColumn(s: Block, i: Index, k: nat): bv8
    requires k < 8
  {
    s[Below(i, k)]
  }

  function MixColumns(s: Block): Block {
    seq(16, i requires 0 <= i < 16 =>
      MixByte(InColumn(s, i, 0), InColumn(s, i, 1), InColumn(s, i, 2), InColumn(s, i, 3)))
  }

  function InvMixColumns(s: Block): Block {
    seq(16, i requires 0 <= i < 16 =>
      InvMixByte(InColumn(s, i, 0), InColumn(s, i, 1), InColumn(s, i, 2), InColumn(s, i, 3)))
  }

  // Key expansion (section 5.2).

  function Rcon(i: nat): bv8 {
    if i <= 1 then 1 else Xtime(Rcon(i - 1))
  }

  function SubWord(w: Word): Word {
    [Sbox(w[0]), Sbox(w[1]), Sbox(w[2]), Sbox(w[3])]
  }

  function RotWord(w: Word): Word {
    [w[1], w[2], w[3], w[0]]
  }

  function KeyWord(key: Block, i: nat): Word {
    if i < 4 then key[4 * i..4 * i + 4]
    else
      var temp := KeyWord(key, i - 1);
      Xor(KeyWord(key, i - 4), if i % 4 == 0 then Xor(SubWord(RotWord(temp)), [Rcon(i / 4), 0, 0, 0]) else temp)
  }

  function RoundKey(key: Block, round: nat): Block {
    KeyWord(key, 4 * round) + KeyWord(key, 4 * round + 1) + KeyWord(key, 4 * round + 2) + KeyWord(key, 4 * round + 3)
  }

  /** The number of rounds, Nk + 6 for a key of Nk words. */
  function Nr(key: Block): (n: nat)
    ensures n == 10
  {
    |key| / 4 + 6
  }

  // The cipher (section 5.1): the state after the first `round` full rounds, then the last round.

  function Rounds(key: Block, input: Block, round: nat): Block {
    if round == 0 then Xor(input, RoundKey(key, 0))
    else Xor(MixColumns(ShiftRows(SubBytes(Rounds(key, input, round - 1)))), RoundKey(key, round))
  }

  function Cipher(key: Block, input: Block): Block {
    Xor(ShiftRows(SubBytes(Rounds(key, input, Nr(key) - 1))), RoundKey(key, Nr(key)))
  }

  // The inverse cipher (section 5.3): the state after undoing the rounds from 10 down to `round`.

  function InvRounds(key: Block, input: Block, round: nat): Block
    requires round <= Nr(key)
    decreases Nr(key) - round
  {
    if round == Nr(key) then Xor(input, RoundKey(key, Nr(key)))
    else InvMixColumns(Xor(InvSubBytes(InvShiftRows(InvRounds(key, input, round + 1))), RoundKey(key, round)))
  }

  function InvCipher(key: Block, input: Block): Block {
    Xor(InvSubBytes(InvShiftRows(InvRounds(key, input, 1))), RoundKey(key, 0))
  }

  lemma SubBytesInverse(s: Block)
    ensures InvSubBytes(SubBytes(s)) == s
    ensures SubBytes(InvSubBytes(s)) == s
  {
    hide Sbox, Rsbox;
    forall i | 0 <= i < 16
      ensures InvSubBytes(SubBytes(s))[i] == s[i]
      ensures SubBytes(InvSubBytes(s))[i] == s[i]
    {
      SboxesInverse(s[i]);
    }
  }

  lemma RightRow(i: Index, n: nat)
    requires n <= 4
    ensures Right(i, n) % 4 == i % 4
    ensures Right(Right(i, n), 4 - n) == i
  {
  }

  lemma ShiftRowsInverse(s: Block)
    ensures InvShiftRows(ShiftRows(s)) == s
    ensures ShiftRows(InvShiftRows(s)) == s
  {
    hide Right;
    forall i | 0 <= i < 16
      ensures InvShiftRows(ShiftRows(s))[i] == s[i]
      ensures ShiftRows(InvShiftRows(s))[i] == s[i]
    {
      RightRow(i, i % 4);
      RightRow(i, 4 - i % 4);
    }
  }

  lemma BelowBelow(i: Index, k: nat, l: nat)
    requires k < 4 && l < 4
    ensures Below(Below(i, k), l) == Below(i, k + l)
  {
  }

  lemma MixedColumn(s: Block, i: Index, k: nat)
    requires k < 4
    ensures InColumn(MixColumns(s), i, k)
         == MixByte(InColumn(s, i, k), InColumn(s, i, k + 1), InColumn(s, i, k + 2), InColumn(s, i, k + 3))
    ensures InColumn(InvMixColumns(s), i, k)
         == InvMixByte(InColumn(s, i, k), InColumn(s, i, k + 1), InColumn(s, i, k + 2), InColumn(s, i, k + 3))
  {
    hide MixByte, InvMixByte, Below;
    BelowBelow(i, k, 0);
    BelowBelow(i, k, 1);
    BelowBelow(i, k, 2);
    BelowBelow(i, k, 3);
  }

  lemma BelowWraps(i: Index)
    ensures Below(i, 0) == i
    ensures Below(i, 4) == Below(i, 0) && Below(i, 5) == Below(i, 1) && Below(i, 6) == Below(i, 2)
  {
  }

  lemma MixColumnsInverse(s: Block)
    ensures InvMixColumns(MixColumns(s)) == s
    ensures MixColumns(InvMixColumns(s)) == s
  {
    hide MixByte, InvMixByte, Below;
    var m, v := MixColumns(s), InvMixColumns(s);
    forall i | 0 <= i < 16
      ensures InvMixColumns(m)[i] == s[i]
      ensures MixColumns(v)[i] == s[i]
    {
      MixInverse(InColumn(s, i, 0), InColumn(s, i, 1), InColumn(s, i, 2), InColumn(s, i, 3));
      BelowWraps(i);
      MixedColumn(s, i, 0);
      MixedColumn(s, i, 1);
      MixedColumn(s, i, 2);
      MixedColumn(s, i, 3);
    }
  }

  lemma {:induction false} InvRoundsUndoRounds(key: Block, input: Block, round: nat)
    requires round <= 9
    ensures InvRounds(key, Cipher(key, input), round + 1) == ShiftRows(SubBytes(Rounds(key, input, round)))
    decreases 9 - round
  {
    hide SubBytes, InvSubBytes, ShiftRows, InvShiftRows, MixColumns, InvMixColumns, RoundKey, Xor;
    var after := ShiftRows(SubBytes(Rounds(key, input, round)));
    if round == 9 {
      XorCancels(after, RoundKey(key, 10));
    } else {
      InvRoundsUndoRounds(key, input, round + 1);
      var s := Rounds(key, input, round + 1);
      ShiftRowsInverse(SubBytes(s));
      SubBytesInverse(s);
      XorCancels(MixColumns(after), RoundKey(key, round + 1));
      MixColumnsInverse(after);
    }
  }

  lemma {:induction false} RoundsUndoInvRounds(key: Block, input: Block, round: nat)
    requires round <= 9
    ensures Rounds(key, InvCipher(key, input), round) == InvSubBytes(InvShiftRows(InvRounds(key, input, round + 1)))
  {
    hide SubBytes, InvSubBytes, ShiftRows, InvShiftRows, MixColumns, InvMixColumns, RoundKey, Xor;
    var before := InvSubBytes(InvShiftRows(InvRounds(key, input, round + 1)));
    if round == 0 {
      XorCancels(before, RoundKey(key, 0));
    } else {
      RoundsUndoInvRounds(key, input, round - 1);
      var s := InvRounds(key, input, round);
      SubBytesInverse(InvShiftRows(s));
      ShiftRowsInverse(s);
      MixColumnsInverse(Xor(before, RoundKey(key, round)));
      XorCancels(before, RoundKey(key, round));
    }
  }

  /** Decryption undoes encryption and encryption undoes decryption, for every key and block. */
  lemma CipherInverse(key: Block, input: Block)
    ensures InvCipher(key, Cipher(key, input)) == input
    ensures Cipher(key, InvCipher(key, input)) == input
  {
    hide SubBytes, InvSubBytes, ShiftRows, InvShiftRows, MixColumns, InvMixColumns, RoundKey, Xor;
    InvRoundsUndoRounds(key, input, 0);
    var s := Rounds(key, input, 0);
    ShiftRowsInverse(SubBytes(s));
    SubBytesInverse(s);
    XorCancels(input, RoundKey(key, 0));

    RoundsUndoInvRounds(key, input, 9);
    var t := InvRounds(key, input, 10);
    SubBytesInverse(InvShiftRows(t));
    ShiftRowsInverse(t);
    XorCancels(input, RoundKey(key, 10));
  }
}
