/** Which event a frame off the air is, and what reaches the network stack. */
module OffAir {
  import opened Bytes
  import opened Options
  import opened Amsdu
  import opened DataFrame
  import opened KeyDerivation
  import opened StationSpec
  import opened StationSafety
  import Management
  import Attempts

  // Management frames.

  lemma FrameIs(subtype: bv8, flags: bv8, a1: Address, a2: Address, a3: Address, seqCtrl: bytes, body: bytes)
    requires |seqCtrl| == 2
    ensures var f := Management.Frame(subtype, flags, a1, a2, a3, seqCtrl, body);
      |f| >= 24 && Join(f[0], f[1]) == Join(subtype, flags)
      && f[4..10] == a1 && f[10..16] == a2 && f[16..22] == a3 && f[24..] == body
  {
    hide Join;
    Management.FrameParts(subtype, flags, a1, a2, a3, seqCtrl, body);
  }

  lemma Subtypes(b: bv8, flags: bv8)
    ensures Join(b, flags) & 0x000c == (b & 0x0c) as bv16 && Join(b, flags) & 0x00f0 == (b & 0xf0) as bv16
  {
  }

  /** A management frame, by its subtype, whatever its flags and sequence number: authentication, the two association
      responses, disassociation and deauthentication are events, with their own addresses and body; nothing else is. */
  lemma ManagementReceived(s: Sta, subtype: bv8, flags: bv8, a1: Address, a2: Address, a3: Address, seqCtrl: bytes, body: bytes,
                           snonce: Nonce, luck: Luck, memory: bool)
    requires |seqCtrl| == 2 && subtype & 0x0f == 0
    ensures var f := Management.Frame(subtype, flags, a1, a2, a3, seqCtrl, body);
      && Received(s, f, snonce, luck, memory)
         == (if subtype == 0xb0 then Some(AuthResponse(a3, body))
             else if subtype == 0x10 || subtype == 0x30 then Some(AssocResponse(a3, body, memory))
             else if subtype == 0xa0 || subtype == 0xc0 then Some(Deauth(a1, a2, a3))
             else None)
      && Upward(s, f) == []
  {
    hide Join, Deliver;
    FrameIs(subtype, flags, a1, a2, a3, seqCtrl, body);
    Subtypes(subtype, flags);
    UpperBits(subtype);
  }

  lemma UpperBits(b: bv8)
    requires b & 0x0f == 0
    ensures b & 0x0c == 0 && b & 0xf0 == b
    ensures ((b as bv16) == 0x00b0 <==> b == 0xb0) && ((b as bv16) == 0x0010 <==> b == 0x10) && ((b as bv16) == 0x0030 <==> b == 0x30)
    ensures ((b as bv16) == 0x00a0 <==> b == 0xa0) && ((b as bv16) == 0x00c0 <==> b == 0xc0)
  {
  }

  /** A deauthentication or disassociation frame ends the connection or handshake if and only if it is from the target, by
      its second or third address, and addressed to the station or to all; all keys are forgotten. Else nothing happens. */
  lemma DeauthFrame(s: Sta, subtype: bv8, flags: bv8, a1: Address, a2: Address, a3: Address, seqCtrl: bytes, body: bytes,
                    snonce: Nonce, luck: Luck, memory: bool)
    requires Safe(s) && |seqCtrl| == 2 && (subtype == 0xa0 || subtype == 0xc0)
    ensures var f := Management.Frame(subtype, flags, a1, a2, a3, seqCtrl, body); var o := Receive(s, f, snonce, luck, memory);
      && o.sent == []
      && if s.state in {Connected, Handshaking} && s.target.bssid in {a2, a3} && a1 in {s.mac, [0xff, 0xff, 0xff, 0xff, 0xff, 0xff]}
         then o.sta.state == Idle && !o.sta.link && Attempts.Forgotten(o.sta)
         else o.sta == s
  {
    hide Received, LittleEndian;
    ManagementReceived(s, subtype, flags, a1, a2, a3, seqCtrl, body, snonce, luck, memory);
  }

  // Data frames.

  /** The length of a data frame's header: 24 bytes, 6 for a fourth address, 2 for QoS. */
  lemma HeaderLengths(fc: bv16)
    requires fc & 0x000c == 0x0008
    ensures HeaderLength(fc) == (if fc & 0x0100 != 0 && fc & 0x0200 != 0 then 30 else 24) + (if fc & 0x0080 != 0 then 2 else 0)
  {
  }

  lemma Behind(h: bytes, ccmp: bytes, rest: bytes)
    ensures var f := h + ccmp + rest; f[..|h|] == h && f[|h|..] == ccmp + rest && f[|h| + |ccmp|..] == rest
  {
  }

  lemma HeaderKept(h: bytes, f: bytes)
    requires |h| >= 24 && |f| >= |h| && f[..|h|] == h
    ensures f[4..10] == h[4..10] && f[16..22] == h[16..22] && forall i :: 0 <= i < |h| ==> f[i] == h[i]
  {
    assert f[..|h|][4..10] == f[4..10] && f[..|h|][16..22] == f[16..22];
  }

  /** A header of this kind, with the CCMP header that goes with it. */
  ghost predicate Headed(h: bytes, ccmp: bytes) {
    hide Join, HeaderLength, IsProtected;
    |h| >= 24 && |h| == HeaderLength(Join(h[0], h[1])) && |ccmp| == if IsProtected(Join(h[0], h[1])) then 8 else 0
  }

  lemma LlcFound(h: bytes, ccmp: bytes, llc: bytes)
    requires |llc| >= 8 && IsSnap(llc) && (|ccmp| == 0 || (|ccmp| == 8 && ccmp[2] != 0x03))
    ensures LlcOffset(h + ccmp + llc, |h|, |ccmp| == 8) == |h| + |ccmp|
  {
    var f := h + ccmp + llc;
    Behind(h, ccmp, llc);
    if |ccmp| == 8 {
      assert f[|h|..][2] == ccmp[2];
    } else {
      assert f[|h|..] == llc;
    }
  }

  lemma MsduOf(f: bytes, n: nat, at: nat, handshaking: bool)
    requires |f| >= 24 && n == HeaderLength(Join(f[0], f[1])) && n <= |f| - 8 && n >= 24
    requires IsQosData(Join(f[0], f[1])) ==> f[n - 2] & 0x80 == 0
    requires at == LlcOffset(f, n, IsProtected(Join(f[0], f[1]))) && IsSnap(f[at..])
    ensures var llc := f[at..];
      Deliver(f, handshaking) == if llc[6..8] == PAE && handshaking then DataFrame.Eapol(llc[8..])
                                 else Frames([Ethernet(f[4..10], f[16..22], llc[6..8], llc[8..])])
  {
    hide Join, HeaderLength, IsProtected, IsQosData, LlcOffset, IsSnap;
  }

  /** A single MSDU behind any header, protected or not: to the handshake if it is EAPOL and one is going on, else up with
      the first address as destination and the third as source. */
  lemma MsduDelivered(h: bytes, ccmp: bytes, etherType: EtherType, payload: bytes, handshaking: bool)
    requires Headed(h, ccmp) && (|ccmp| == 8 ==> ccmp[2] != 0x03)
    requires IsQosData(Join(h[0], h[1])) ==> h[|h| - 2] & 0x80 == 0
    ensures var f := h + ccmp + (SNAP + etherType + payload);
      && |f| >= 24
      && Deliver(f, handshaking) == if handshaking && etherType == PAE then DataFrame.Eapol(payload)
                                    else Frames([Ethernet(h[4..10], h[16..22], etherType, payload)])
  {
    hide Join, HeaderLength, IsProtected, IsQosData, LlcOffset, IsSnap, Deliver;
    var llc := SNAP + etherType + payload;
    var f := h + ccmp + llc;
    Behind(h, ccmp, llc);
    HeaderKept(h, f);
    LlcParts(etherType, payload);
    LlcFound(h, ccmp, llc);
    MsduOf(f, |h|, |h| + |ccmp|, handshaking);
  }

  /** An A-MSDU behind any QoS header, protected or not: every frame of it goes up, in order. */
  lemma AmsduDelivered(h: bytes, ccmp: bytes, es: seq<Ethernet>, handshaking: bool)
    requires Headed(h, ccmp) && IsQosData(Join(h[0], h[1])) && h[|h| - 2] & 0x80 != 0 && forall e :: e in es ==> Fits(e)
    ensures var f := h + ccmp + EncodeAll(es); |f| >= 24 && Deliver(f, handshaking) == Frames(es)
  {
    hide Join, HeaderLength, IsProtected, IsQosData, EncodeAll, Split, Fits;
    var f := h + ccmp + EncodeAll(es);
    Behind(h, ccmp, EncodeAll(es));
    HeaderKept(h, f);
    AmsduRoundTrip(es);
  }

  /** What a data frame is to the station: nothing unless it may receive; EAPOL only while shaking hands. */
  lemma DataReceived(s: Sta, h: bytes, ccmp: bytes, etherType: EtherType, payload: bytes, snonce: Nonce, luck: Luck, memory: bool)
    requires Headed(h, ccmp) && (|ccmp| == 8 ==> ccmp[2] != 0x03) && Join(h[0], h[1]) & 0x000c == 0x0008
    requires IsQosData(Join(h[0], h[1])) ==> h[|h| - 2] & 0x80 == 0
    ensures var f := h + ccmp + (SNAP + etherType + payload);
      && |f| >= 24
      && Received(s, f, snonce, luck, memory)
         == (if s.state == Handshaking && etherType == PAE then Some(EapolData(payload, snonce, luck)) else None)
      && Upward(s, f)
         == if !MayReceive(s) || (s.state == Handshaking && etherType == PAE) then []
            else [Ethernet(h[4..10], h[16..22], etherType, payload)]
  {
    hide Join, HeaderLength, IsProtected, IsQosData, Deliver;
    MsduDelivered(h, ccmp, etherType, payload, s.state == Handshaking);
    HeaderKept(h, h + ccmp + (SNAP + etherType + payload));
  }

  /** Control frames are nothing to it. */
  lemma OthersIgnored(s: Sta, f: bytes, snonce: Nonce, luck: Luck, memory: bool)
    requires |f| >= 24 && Join(f[0], f[1]) & 0x000c != 0 && Join(f[0], f[1]) & 0x000c != 0x0008
    ensures Receive(s, f, snonce, luck, memory) == Outcome(s, []) && Upward(s, f) == []
  {
    hide Join, Deliver;
  }
}
