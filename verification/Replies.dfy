/** The replies of the handshake as the access point reads them, section 12.7.2 of IEEE Std 802.11-2016. */
module Replies {
  import opened Bytes
  import opened Options
  import opened KeyDerivation
  import opened Eapol
  import opened CipherSuites
  import Beacon
  import Kde

  /** How the access point finds a reply. Message 2 has the pairwise and the MIC bit and carries the station's RSN
      element; message 4 has the Secure bit besides and carries nothing. Neither asks for an answer. */
  lemma ReplyRead(step: nat, counter: Counter, snonce: Nonce, tkipGroup: bool, kck: bytes)
    requires step == 2 || step == 4
    ensures var b := Signed(Reply(step, counter, snonce, tkipGroup), kck);
      && |b| == (if step == 2 then 121 else 99) && b[0] == 2 && b[1] == 3 && Number(b[2], b[3]) == |b| - 4 && b[4] == 2
      && Info(b) == (if step == 2 then 0x0002 | 0x0008 | 0x0100 else 0x0002 | 0x0008 | 0x0100 | 0x0200)
      && Number(b[7], b[8]) == 16 && b[9..17] == counter && b[17..49] == snonce && b[49..81] == Zeros(32)
      && b[81..97] == MicOf(kck, b) && Number(b[97], b[98]) == |b| - 99
      && b[99..] == if step == 2 then RsnElement(tkipGroup) else []
  {
    hide Encode, Number, MicOf, RsnElement, Info;
    var f := Reply(step, counter, snonce, tkipGroup);
    var mic := MicOf(kck, Encode(f, Zeros(16)));
    SignedPasses(f, kck);
    FieldsRead(f, mic);
    FixedFields(f, mic);
    InfoBits();
  }

  lemma InfoBits()
    ensures 0x010a as bv16 == 0x0002 | 0x0008 | 0x0100 && 0x030a as bv16 == 0x0002 | 0x0008 | 0x0100 | 0x0200
  {
  }

  /** Version, descriptor type, key length, and the fields left zero. */
  lemma FixedFields(f: KeyFrame, mic: Mic)
    requires 95 + |f.data| < 0x1_0000
    ensures var b := Encode(f, mic); |b| >= 99 && b[0] == f.version && b[4] == 2 && Number(b[7], b[8]) == 16 && b[49..81] == f.rest
  {
    hide Number, Byte, BigEndian2, InfoBytes, Back, Front;
    FieldsRead(f, mic);
    FrontFixed(f);
    MicField(f, mic);
    var b := Encode(f, mic);
    assert b[0] == b[..81][0] && b[4] == b[..81][4] && b[7] == b[..81][7] && b[8] == b[..81][8];
    assert b[49..81] == b[..81][49..81];
  }

  lemma FrontFixed(f: KeyFrame)
    ensures var b := Front(f); b[0] == f.version && b[4] == 2 && Number(b[7], b[8]) == 16 && b[49..81] == f.rest
  {
    hide Byte, Number, BigEndian2, InfoBytes;
    TwoBytes(95 + |f.data|, f.info);
    var head := [f.version, 3] + BigEndian2(95 + |f.data|) + [2] + InfoBytes(f.info) + [0, 16];
    assert Front(f) == head + f.counter + f.nonce + f.rest;
    assert Number(0, 16) == 16 by { Sixteen(); }
  }

  lemma Sixteen()
    ensures Number(0, 16) == 16
  {
  }

  function StationRsn(tkipGroup: bool): Beacon.Rsn {
    Beacon.Rsn([1, 0], if tkipGroup then TKIP_SUITE else CCMP_SUITE, [CCMP_SUITE], [PSK_SUITE], [0, 0])
  }

  lemma OneCounted(s: Suite)
    ensures Beacon.Counted([s]) == [1, 0] + s
  {
    assert Byte(1) == 1 && Byte(0) == 0;
    assert Beacon.Suites([s]) == s;
  }

  lemma RsnEncoded(tkipGroup: bool)
    ensures RsnElement(tkipGroup) == [48, 20] + Beacon.EncodeRsn(StationRsn(tkipGroup))
  {
    hide Beacon.Counted;
    OneCounted(CCMP_SUITE);
    OneCounted(PSK_SUITE);
  }

  lemma Twenty()
    ensures Val(20) == 20 && Number(0, 1) == 1
  {
  }

  lemma OneElement(b: bytes, body: bytes)
    requires b == [48, 20] + body && |body| == 20
    ensures Beacon.Elements(b) == [Kde.Element(48, body)]
  {
    hide Val;
    Twenty();
    assert b[2..22] == body && b[22..] == [];
  }

  /** The element of message 2, read like one of a beacon: it is one RSN element, of version 1, that offers exactly CCMP and
      the pre-shared key, with the group cipher of the network; and by it a station would select that group cipher. */
  lemma RsnElementRead(tkipGroup: bool)
    ensures var b := RsnElement(tkipGroup); var body := Beacon.EncodeRsn(StationRsn(tkipGroup));
      && |body| == 20 && Beacon.Elements(b) == [Kde.Element(48, body)] && Number(body[1], body[0]) == 1
      && Beacon.Select(body) == Some(if tkipGroup then Beacon.TKIP else Beacon.CCMP)
  {
    hide Number, Beacon.Elements, Beacon.Select, RsnElement;
    RsnEncoded(tkipGroup);
    Twenty();
    VersionFirst(StationRsn(tkipGroup));
    OneElement(RsnElement(tkipGroup), Beacon.EncodeRsn(StationRsn(tkipGroup)));
    Beacon.RsnSelected(StationRsn(tkipGroup));
  }

  lemma VersionFirst(r: Beacon.Rsn)
    requires |r.version| == 2
    ensures |Beacon.EncodeRsn(r)| >= 2 && Beacon.EncodeRsn(r)[0] == r.version[0] && Beacon.EncodeRsn(r)[1] == r.version[1]
  {
    hide Beacon.Counted;
  }
}
