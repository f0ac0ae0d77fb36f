/** 802.11 data frames: the CCMP packet number, encapsulation into a socket buffer, and delivery. */
module DataFrame {
  import opened Bytes
  import opened Options
  import opened Amsdu
  import opened Skb

  // The packet number: six bytes, low byte first.

  type Pn = s: bytes | |s| == 6 witness [0, 0, 0, 0, 0, 0]

  function Pow256(n: nat): nat {
    if n == 0 then 1 else 256 * Pow256(n - 1)
  }

  function LittleEndian(b: bytes): nat {
    if |b| == 0 then 0 else Val(b[0]) + 256 * LittleEndian(b[1..])
  }

  /** The byte carry: each byte that wraps to zero carries into the next. */
  function Incremented(b: bytes): (c: bytes)
    ensures |c| == |b|
  {
    if |b| == 0 then []
    else if b[0] != 0xff then [b[0] + 1] + b[1..]
    else [0] + Incremented(b[1..])
  }

  lemma {:induction false} LittleEndianBound(b: bytes)
    ensures LittleEndian(b) < Pow256(|b|)
  {
    hide Val;
    if |b| > 0 {
      ByteVal(b[0]);
      LittleEndianBound(b[1..]);
    }
  }

  lemma ByteEnds()
    ensures Val(0) == 0 && Val(0xff) == 255
    ensures forall b: bv8 :: b != 0xff ==> Val(b) < 255
  {
    forall b: bv8 | b != 0xff
      ensures Val(b) < 255
    {
      assert b as nat != 255;
    }
  }

  /** The carry adds one, modulo 2 to the 48th for six bytes. */
  lemma {:induction false} IncrementAddsOne(b: bytes)
    ensures LittleEndian(Incremented(b)) == if LittleEndian(b) + 1 == Pow256(|b|) then 0 else LittleEndian(b) + 1
  {
    hide Val;
    LittleEndianBound(b);
    ByteEnds();
    if |b| > 0 {
      LittleEndianBound(b[1..]);
      if b[0] != 0xff {
        NextByte(b[0]);
        assert ([b[0] + 1] + b[1..])[1..] == b[1..];
      } else {
        IncrementAddsOne(b[1..]);
        assert Incremented(b)[1..] == Incremented(b[1..]);
      }
    }
  }

  lemma SixBytes()
    ensures Pow256(6) == 0x1_0000_0000_0000
  {
  }

  /** The same carry, from byte i on. */
  function IncrementedFrom(b: bytes, i: nat): (c: bytes)
    requires i <= |b|
    ensures |c| == |b|
    decreases |b| - i
  {
    if i == |b| then b
    else if b[i] != 0xff then b[i := b[i] + 1]
    else IncrementedFrom(b[i := 0], i + 1)
  }

  lemma {:induction false} CarryFrom(b: bytes, i: nat)
    requires i <= |b|
    ensures IncrementedFrom(b, i) == b[..i] + Incremented(b[i..])
    decreases |b| - i
  {
    if i == |b| {
      assert b == b[..i] + [];
    } else {
      var rest := b[i..];
      assert rest[0] == b[i] && rest[1..] == b[i + 1..];
      if b[i] != 0xff {
        assert b[i := b[i] + 1] == b[..i] + ([b[i] + 1] + b[i + 1..]);
      } else {
        var c := b[i := 0];
        CarryFrom(c, i + 1);
        assert c[i + 1..] == b[i + 1..] && c[..i + 1] == b[..i] + [0];
        Joined(b[..i], [0], Incremented(b[i + 1..]));
      }
    }
  }

  lemma Joined(p: bytes, q: bytes, r: bytes)
    ensures (p + q) + r == p + (q + r)
  {
  }

  method IncrementPn(pn: array<bv8>)
    requires pn.Length == 6
    modifies pn
    ensures pn[..] == Incremented(old(pn[..]))
  {
    ghost var before: Pn := pn[..];
    CarryFrom(before, 0);
    assert before[0..] == before && [] + Incremented(before) == Incremented(before);
    hide Incremented;
    var i := 0;
    while i < 6
      invariant i <= 6 && IncrementedFrom(pn[..], i) == Incremented(before)
      decreases 6 - i
    {
      ghost var here := pn[..];
      pn[i] := pn[i] + 1;
      assert pn[..] == here[i := here[i] + 1];
      if pn[i] != 0 {
        return;
      }
      i := i + 1;
    }
  }

  // The frame-control field.

  function FrameControl(qos: bool, protected: bool): bv16 {
    0x0108 | (if qos then 0x0080 else 0) | (if protected then 0x4000 else 0)
  }

  function LowByte(x: bv16): bv8 {
    (x & 0xff) as bv8
  }

  function HighByte(x: bv16): bv8 {
    (x >> 8) as bv8
  }

  function Join(low: bv8, high: bv8): bv16 {
    ((high as bv16) << 8) | (low as bv16)
  }

  predicate IsQosData(fc: bv16) {
    fc & 0x008c == 0x0088
  }

  predicate IsProtected(fc: bv16) {
    fc & 0x4000 != 0
  }

  function HeaderLength(fc: bv16): nat {
    24 + (if fc & 0x0300 == 0x0300 then 6 else 0) + (if fc & 0x0080 != 0 && fc & 0x000c == 0x0008 then 2 else 0)
  }

  lemma FrameControlRead(qos: bool, protected: bool)
    ensures var fc := FrameControl(qos, protected);
      && Join(LowByte(fc), HighByte(fc)) == fc
      && (IsQosData(fc) <==> qos) && (IsProtected(fc) <==> protected)
      && HeaderLength(fc) == if qos then 26 else 24
  {
  }

  /** What goes into one data frame; key is the index of the pairwise key when the frame is protected. */
  datatype Content = Content(qos: bool, key: Option<bv8>, pn: Pn, bssid: Address, mac: Address, da: Address,
                             seqCtrl: nat, tid: bv8, etherType: EtherType, payload: bytes)

  function Header(c: Content): bytes {
    var fc := FrameControl(c.qos, c.key.Some?);
    [LowByte(fc), HighByte(fc), 0, 0] + c.bssid + c.mac + c.da + [Byte(c.seqCtrl), Byte(c.seqCtrl / 256)]
      + (if c.qos then [c.tid & 0x0f, 0] else [])
  }

  function Ccmp(c: Content): bytes {
    if c.key.None? then []
    else [c.pn[0], c.pn[1], 0x00, 0x20 | ((c.key.value & 0x3) << 6), c.pn[2], c.pn[3], c.pn[4], c.pn[5]]
  }

  function Encapsulate(c: Content): bytes {
    Header(c) + Ccmp(c) + (SNAP + c.etherType) + c.payload
  }

  /** What the receiver does with a data frame. */
  datatype Delivery = Dropped | Frames(frames: seq<Ethernet>) | Eapol(message: bytes)

  /** Where the LLC header of a single MSDU is: behind the CCMP header if there is one in the way. */
  function LlcOffset(frame: bytes, n: nat, protected: bool): nat
    requires n + 8 <= |frame|
  {
    if !IsSnap(frame[n..]) && protected && |frame| >= n + 16 && IsSnap(frame[n + 8..]) then n + 8 else n
  }

  const PAE: bytes := [0x88, 0x8e]

  function Deliver(frame: bytes, handshaking: bool): Delivery
    requires |frame| >= 24
  {
    var fc := Join(frame[0], frame[1]);
    var n := HeaderLength(fc);
    if |frame| < n then Dropped
    else if IsQosData(fc) && frame[n - 2] & 0x80 != 0 then
      var off := if IsProtected(fc) then n + 8 else n;
      if |frame| < off then Dropped else Frames(Split(frame[off..]))
    else if |frame| < n + 8 then Dropped
    else
      var at := LlcOffset(frame, n, IsProtected(fc));
      var llc := frame[at..];
      var etherType := if IsSnap(llc) then llc[6..8] else [0, 0];
      if IsSnap(llc) && etherType == PAE && handshaking then Eapol(llc[8..])
      else Frames([Ethernet(frame[4..10], frame[16..22], etherType, llc[8..])])
  }

  /** Where the fields of the header are. */
  lemma Placed(front: bytes, a: Address, b: Address, c: Address, back: bytes)
    requires |front| == 4
    ensures var h := front + a + b + c + back;
      && h[..4] == front && h[4..10] == a && h[10..16] == b && h[16..22] == c && h[22..] == back
  {
    Field(front, a, b + c + back);
    Field(front + a, b, c + back);
    Field(front + a + b, c, back);
    var h := front + a + b + c + back;
    assert h == front + a + (b + c + back) && h == front + a + b + (c + back);
  }

  lemma HeaderParts(c: Content)
    ensures |Header(c)| == if c.qos then 26 else 24
    ensures Header(c)[0] == LowByte(FrameControl(c.qos, c.key.Some?)) && Header(c)[1] == HighByte(FrameControl(c.qos, c.key.Some?))
    ensures Header(c)[4..10] == c.bssid && Header(c)[16..22] == c.da
    ensures c.qos ==> Header(c)[24] & 0x80 == 0
  {
    hide FrameControl, LowByte, HighByte, Byte;
    var h := Header(c);
    var fc := FrameControl(c.qos, c.key.Some?);
    var front := [LowByte(fc), HighByte(fc), 0, 0];
    var back := [Byte(c.seqCtrl), Byte(c.seqCtrl / 256)] + (if c.qos then [c.tid & 0x0f, 0] else []);
    assert h == front + c.bssid + c.mac + c.da + back;
    Placed(front, c.bssid, c.mac, c.da, back);
    assert h[0] == h[..4][0] && h[1] == h[..4][1] && h[22..] == back;
    if c.qos {
      assert h[24] == h[22..][2];
      assert back[2] == c.tid & 0x0f;
    }
  }

  lemma Field(p: bytes, q: bytes, r: bytes)
    ensures (p + q + r)[|p|..|p| + |q|] == q
    ensures (p + q + r)[|p|..] == q + r
  {
  }

  /** The receiver finds the SNAP header behind whatever precedes it: the third byte of a CCMP header is never 3. */
  lemma SnapFound(c: Content)
    ensures var f := Encapsulate(c); var n := |Header(c)|; var at := n + |Ccmp(c)|;
      && n + 8 <= |f| && at + 8 <= |f| && LlcOffset(f, n, c.key.Some?) == at && IsSnap(f[at..])
      && f[at..][6..8] == c.etherType && f[at..][8..] == c.payload
      && f[..n] == Header(c)
  {
    hide Header;
    var f, n := Encapsulate(c), |Header(c)|;
    var at := n + |Ccmp(c)|;
    var llc := SNAP + c.etherType + c.payload;
    assert f == Header(c) + Ccmp(c) + llc;
    assert f[at..] == llc && f[..n] == Header(c) && f[n..] == Ccmp(c) + llc;
    LlcParts(c.etherType, c.payload);
    if c.key.Some? {
      assert f[n..][2] == Ccmp(c)[2];
      assert f[n + 8..] == llc;
    }
  }

  lemma LlcParts(etherType: EtherType, payload: bytes)
    ensures var llc := SNAP + etherType + payload;
      |llc| >= 8 && IsSnap(llc) && llc[6..8] == etherType && llc[8..] == payload
  {
    var llc := SNAP + etherType + payload;
    assert llc[0] == SNAP[0] && llc[1] == SNAP[1] && llc[2] == SNAP[2];
    Field(SNAP, etherType, payload);
  }

  /** With or without QoS, protected or not, for every packet number and payload: delivery recovers
      exactly the addresses, ethertype and payload that encapsulation wrote. */
  lemma EncapsulationRoundTrip(c: Content, handshaking: bool)
    ensures |Encapsulate(c)| >= 24
    ensures Deliver(Encapsulate(c), handshaking)
         == if handshaking && c.etherType == PAE then Eapol(c.payload)
            else Frames([Ethernet(c.bssid, c.da, c.etherType, c.payload)])
  {
    hide Header, Encapsulate, Ccmp, LlcOffset, FrameControl, Join, LowByte, HighByte, IsSnap;
    HeaderParts(c);
    SnapFound(c);
    FrameControlRead(c.qos, c.key.Some?);
    hide IsQosData, IsProtected, HeaderLength;
    var f, h := Encapsulate(c), Header(c);
    assert f[0] == h[0] && f[1] == h[1];
    assert f[4..10] == h[4..10] && f[16..22] == h[16..22];
    assert c.qos ==> f[24] == h[24];
  }

  method PutHeader(skb: SkBuff, c: Content)
    requires skb.Valid() && skb.Contents() == [] && skb.Tailroom() >= if c.qos then 26 else 24
    modifies skb, skb.mem
    ensures skb.Valid() && skb.Contents() == Header(c) && skb.data == old(skb.data)
    ensures skb.Tailroom() == old(skb.Tailroom()) - if c.qos then 26 else 24
  {
    hide FrameControl, LowByte, HighByte, Byte;
    var fc := FrameControl(c.qos, c.key.Some?);
    skb.Put([LowByte(fc), HighByte(fc), 0, 0] + c.bssid + c.mac + c.da + [Byte(c.seqCtrl), Byte(c.seqCtrl / 256)]);
    if c.qos {
      skb.Put([c.tid & 0x0f, 0]);
    }
  }

  /** Builds the frame in a socket buffer; the buffer asked for is always large enough. */
  method BuildFrame(c: Content) returns (skb: SkBuff)
    ensures fresh(skb) && fresh(skb.mem) && skb.Valid() && skb.Contents() == Encapsulate(c)
    ensures skb.data == 128
  {
    hide Header;
    var protected := c.key.Some?;
    var hlen := if c.qos then 26 else 24;
    var frameLen := hlen + (if protected then 8 else 0) + 8 + |c.payload|;
    skb := new SkBuff(frameLen + 128);
    skb.Reserve(128);
    PutHeader(skb, c);
    if protected {
      skb.Put([c.pn[0], c.pn[1], 0x00, 0x20 | ((c.key.value & 0x3) << 6), c.pn[2], c.pn[3], c.pn[4], c.pn[5]]);
    }
    assert skb.Contents() == Header(c) + Ccmp(c);
    skb.Put([0xAA, 0xAA, 0x03, 0x00, 0x00, 0x00] + c.etherType);
    if |c.payload| > 0 {
      skb.Put(c.payload);
    }
  }

  /** Delivery of a received data frame, branch by branch. */
  method DeliverDataFrame(frame: bytes, handshaking: bool) returns (d: Delivery)
    requires |frame| >= 24
    ensures d == Deliver(frame, handshaking)
  {
    hide Join, IsQosData, IsProtected, HeaderLength, Split, Byte;
    var fc := Join(frame[0], frame[1]);
    var n := HeaderLength(fc);
    LengthAtLeast(fc);
    if |frame| < n {
      return Dropped;
    }
    var amsdu := false;
    if IsQosData(fc) {
      amsdu := frame[n - 2] & 0x80 != 0;
    }
    if amsdu {
      var off := n;
      if IsProtected(fc) {
        if |frame| < off + 8 {
          return Dropped;
        }
        off := off + 8;
      }
      var msdus := DeAmsdu(frame[off..]);
      return Frames(msdus);
    }
    var payloadOff := n;
    if |frame| < payloadOff + 8 {
      return Dropped;
    }
    var llc := frame[payloadOff..];
    if (llc[0] != 0xAA || llc[1] != 0xAA || llc[2] != 0x03) && IsProtected(fc) && |frame| >= payloadOff + 8 + 8 {
      var behind := frame[payloadOff + 8..];
      if behind[0] == 0xAA && behind[1] == 0xAA && behind[2] == 0x03 {
        payloadOff := payloadOff + 8;
        llc := behind;
      }
    }
    assert payloadOff == LlcOffset(frame, n, IsProtected(fc));
    var etherType: EtherType := [0, 0];
    if llc[0] == 0xAA && llc[1] == 0xAA && llc[2] == 0x03 {
      assert |llc| >= 8;
      etherType := llc[6..8];
      if etherType == [0x88, 0x8e] && handshaking {
        return Eapol(llc[8..]);
      }
    }
    return Frames([Ethernet(frame[4..10], frame[16..22], etherType, llc[8..])]);
  }

  lemma LengthAtLeast(fc: bv16)
    ensures HeaderLength(fc) >= 24
  {
  }
}
