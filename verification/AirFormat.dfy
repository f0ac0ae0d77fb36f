/** Data frames as their receiver reads them, sections 9.2.4 and 12.5.3.2 of IEEE Std 802.11-2016. */
module AirFormat {
  import opened Bytes
  import opened Options
  import opened Amsdu
  import opened DataFrame

  // The CCMP header.

  /** The packet number: PN0 and PN1 in front, PN2 to PN5 behind the key ID. */
  function AirPn(h: bytes): nat
    requires |h| == 8
  {
    Val(h[0]) + 0x100 * Val(h[1]) + 0x1_0000 * Val(h[4]) + 0x100_0000 * Val(h[5]) + 0x1_0000_0000 * Val(h[6])
      + 0x100_0000_0000 * Val(h[7])
  }

  /** The key ID; the bits besides it and ExtIV are reserved, as is the third byte. */
  function AirKeyId(h: bytes): bv8
    requires |h| == 8
  {
    h[3] >> 6
  }

  predicate ExtIvSet(h: bytes)
    requires |h| == 8
  {
    h[2] == 0 && h[3] & 0x3f == 0x20
  }

  lemma SixDigits(b: Pn)
    ensures LittleEndian(b) == Val(b[0]) + 0x100 * Val(b[1]) + 0x1_0000 * Val(b[2]) + 0x100_0000 * Val(b[3]) + 0x1_0000_0000 * Val(b[4])
      + 0x100_0000_0000 * Val(b[5])
  {
    hide Val;
    Digit(b);
    Digit(b[1..]);
    Digit(b[2..]);
    Digit(b[3..]);
    Digit(b[4..]);
    Digit(b[5..]);
    assert b[1..][1..] == b[2..] && b[2..][1..] == b[3..] && b[3..][1..] == b[4..] && b[4..][1..] == b[5..] && b[5..][1..] == [];
    assert LittleEndian([]) == 0;
  }

  lemma Digit(b: bytes)
    requires |b| > 0
    ensures LittleEndian(b) == Val(b[0]) + 256 * LittleEndian(b[1..])
  {
  }

  lemma KeyIdRead(key: bv8)
    ensures (0x20 | ((key & 0x3) << 6)) >> 6 == key & 0x3 && (0x20 | ((key & 0x3) << 6)) & 0x3f == 0x20
  {
  }

  /** The eight bytes behind the header. */
  function AirCcmp(f: bytes, n: nat): bytes
    requires n + 8 <= |f|
  {
    f[n..n + 8]
  }

  lemma CcmpStands(c: Content)
    requires c.key.Some?
    ensures var f, n := Encapsulate(c), if c.qos then 26 else 24; n + 8 <= |f| && AirCcmp(f, n) == Ccmp(c)
  {
    hide Header, Ccmp;
    HeaderParts(c);
    CcmpLength(c);
    Field(Header(c), Ccmp(c), (SNAP + c.etherType) + c.payload);
    assert Encapsulate(c) == Header(c) + Ccmp(c) + ((SNAP + c.etherType) + c.payload);
  }

  lemma CcmpLength(c: Content)
    ensures |Ccmp(c)| == if c.key.Some? then 8 else 0
  {
  }

  /** The receiver reads the packet number, the key index and the mark of an extended IV. */
  lemma CcmpRead(c: Content)
    requires c.key.Some?
    ensures var f, n := Encapsulate(c), if c.qos then 26 else 24;
      && n + 8 <= |f| && var h := AirCcmp(f, n);
      && AirPn(h) == LittleEndian(c.pn) && AirKeyId(h) == c.key.value & 0x3 && ExtIvSet(h)
  {
    hide Encapsulate, AirCcmp, LittleEndian, Val;
    CcmpStands(c);
    SixDigits(c.pn);
    KeyIdRead(c.key.value);
  }

  // The header.

  function AirFc(f: bytes): bv16
    requires |f| >= 24
  {
    ((f[1] as bv16) << 8) | (f[0] as bv16)
  }

  /** The number of the frame, and that of the fragment. */
  function AirSeq(f: bytes): nat
    requires |f| >= 24
  {
    Number(f[23], f[22]) / 16
  }

  function AirFragment(f: bytes): nat
    requires |f| >= 24
  {
    Number(f[23], f[22]) % 16
  }

  lemma TwoBytesRead(n: nat)
    ensures Number(Byte(n / 256), Byte(n)) == n % 0x1_0000
  {
    hide Byte, Val;
    ValByte(n);
    ValByte(n / 256);
  }

  lemma JoinRead(x: bv16)
    ensures (((HighByte(x)) as bv16) << 8) | ((LowByte(x)) as bv16) == x
  {
  }

  lemma StartsWith(f: bytes, h: bytes)
    requires |h| >= 24 && |f| >= |h| && f[..|h|] == h
    ensures f[4..10] == h[4..10] && f[10..16] == h[10..16] && f[16..22] == h[16..22]
    ensures forall i :: 0 <= i < |h| ==> f[i] == h[i]
  {
    assert f[..|h|][4..10] == f[4..10] && f[..|h|][10..16] == f[10..16] && f[..|h|][16..22] == f[16..22];
  }

  lemma HeaderFields(c: Content)
    ensures var h := Header(c);
      && |h| == (if c.qos then 26 else 24) && h[4..10] == c.bssid && h[10..16] == c.mac && h[16..22] == c.da
      && h[0] == LowByte(FrameControl(c.qos, c.key.Some?)) && h[1] == HighByte(FrameControl(c.qos, c.key.Some?)) && h[2] == 0 && h[3] == 0
      && h[22] == Byte(c.seqCtrl) && h[23] == Byte(c.seqCtrl / 256) && (c.qos ==> h[24] == c.tid & 0x0f && h[25] == 0)
  {
    hide LowByte, HighByte, Byte, FrameControl;
    var fc := FrameControl(c.qos, c.key.Some?);
    var front := [LowByte(fc), HighByte(fc), 0, 0];
    var back := [Byte(c.seqCtrl), Byte(c.seqCtrl / 256)] + (if c.qos then [c.tid & 0x0f, 0] else []);
    var h := Header(c);
    assert h == front + c.bssid + c.mac + c.da + back;
    Placed(front, c.bssid, c.mac, c.da, back);
    assert h[0] == h[..4][0] && h[1] == h[..4][1] && h[2] == h[..4][2] && h[3] == h[..4][3];
    assert h[22] == h[22..][0] && h[23] == h[22..][1];
    assert c.qos ==> h[24] == h[22..][2] && h[25] == h[22..][3];
  }

  /** A data frame from the station (ToDS, not FromDS), first transmission, no fragment, neither power saving nor
      more data; the access point, the station and the destination; the sequence control given. */
  lemma HeaderRead(c: Content)
    ensures var f := Encapsulate(c);
      && |f| >= 24 && f[4..10] == c.bssid && f[10..16] == c.mac && f[16..22] == c.da && Number(f[23], f[22]) == c.seqCtrl % 0x1_0000
      && f[2] == 0 && f[3] == 0
      && AirFc(f) == (if c.qos then 0x0188 else 0x0108) | (if c.key.Some? then 0x4000 else 0)
      && (c.qos ==> |f| >= 26 && f[24] == c.tid & 0x0f && f[25] == 0)
  {
    hide Header, Ccmp, LowByte, HighByte, Byte, Number, FrameControl;
    var f, h := Encapsulate(c), Header(c);
    HeaderFields(c);
    assert f == h + (Ccmp(c) + (SNAP + c.etherType) + c.payload);
    assert f[..|h|] == h;
    StartsWith(f, h);
    JoinRead(FrameControl(c.qos, c.key.Some?));
    TwoBytesRead(c.seqCtrl);
    FcIs(c.qos, c.key.Some?);
  }

  lemma FcIs(qos: bool, protected: bool)
    ensures FrameControl(qos, protected) == (if qos then 0x0188 else 0x0108) | (if protected then 0x4000 else 0)
  {
  }
}
