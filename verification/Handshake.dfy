/** The 4-way handshake of section 12.7.6 of IEEE Std 802.11-2016 between the station and an access point. */
module Handshake {
  import opened Bytes
  import opened Options
  import opened DataFrame
  import opened KeyDerivation
  import opened Eapol
  import opened StationSpec
  import opened StationSafety
  import KeyWrap
  import Kde

  /** Message 1 asks for an answer and has no MIC; message 3 also has one, and wrapped key data. */
  predicate IsMessage1(info: bv16) {
    info & 0x0088 == 0x0088 && info & 0x0100 == 0
  }

  predicate IsMessage3(info: bv16) {
    info & 0x01c8 == 0x01c8 && info & 0x1000 != 0
  }

  lemma Kinds(info: bv16)
    ensures IsMessage3(info) ==> info & 0x0100 != 0
  {
  }

  /** The authenticator's key: same pairwise master key, its own view of who is who. */
  function AuthenticatorPtk(s: Sta, anonce: Nonce, snonce: Nonce): Ptk {
    PtkOf(s.pmk, snonce, anonce, s.target.bssid, s.mac)
  }

  lemma ReadThroughTail(f: KeyFrame, mic: Mic, tail: bytes)
    requires 95 + |f.data| < 0x1_0000
    ensures var b := Encode(f, mic) + tail; var n := 99 + |f.data|;
      && |b| >= n && b[1] == 3 && 4 + Number(b[2], b[3]) == n && b[..n] == Encode(f, mic)
      && Info(b) == f.info && b[9..17] == f.counter && b[17..49] == f.nonce
      && Number(b[97], b[98]) == |f.data| && b[99..99 + |f.data|] == f.data
  {
    hide Encode, Number;
    FieldsRead(f, mic);
    var e := Encode(f, mic);
    var b := e + tail;
    assert b[..|e|] == e;
    assert b[9..17] == e[9..17] && b[17..49] == e[17..49] && b[99..|e|] == e[99..];
  }

  /** Whether a reply gets out: there must be a peer record, a buffer and a copy. */
  predicate ReplyGoesOut(s: Sta, luck: Luck) {
    s.attached && s.peer && luck.txMemory && luck.txCopied
  }

  /** A reply leaves as one unprotected EAPOL frame to the access point, or not at all. */
  lemma ReplySent(s: Sta, step: nat, luck: Luck)
    ensures var o := SendReply(s, step, luck);
      if ReplyGoesOut(s, luck) then
        && |o.sent| == 1 && o.sent[0].key.None? && o.sent[0].content.etherType == PAE && o.sent[0].content.da == s.target.bssid
        && o.sent[0].content.payload == Signed(Reply(step, s.counter, s.snonce, s.target.groupCipher == Tkip), s.ptk[..16])
      else o.sent == []
  {
    hide Encode, MicOf, NextSeqCtrl, Counted, RsnElement;
    CountedKeeps(s, false);
    assert |Reply(step, s.counter, s.snonce, s.target.groupCipher == Tkip).data| <= 22;
  }

  /** What the authenticator checks in a reply, and the counter and nonce it reads. */
  ghost predicate Accepts(ptk: Ptk, message: bytes, counter: Counter, snonce: Nonce) {
    MicOk(ptk[..16], message) && message[9..17] == counter && message[17..49] == snonce
  }

  lemma ReplyAccepted(ptk: Ptk, step: nat, counter: Counter, snonce: Nonce, tkipGroup: bool)
    ensures Accepts(ptk, Signed(Reply(step, counter, snonce, tkipGroup), ptk[..16]), counter, snonce)
  {
    hide Encode, MicOf, MicOk, Number, RsnElement;
    var f := Reply(step, counter, snonce, tkipGroup);
    SignedPasses(f, ptk[..16]);
    FieldsRead(f, MicOf(ptk[..16], Encode(f, Zeros(16))));
  }

  /** What the authenticator gets to see: one reply it accepts if it goes out at all, else nothing. */
  ghost predicate Answered(sent: seq<Sent>, goesOut: bool, ptk: Ptk, counter: Counter, snonce: Nonce) {
    if goesOut then |sent| == 1 && Accepts(ptk, sent[0].content.payload, counter, snonce) else sent == []
  }

  lemma ReplyAnswers(s: Sta, step: nat, luck: Luck)
    ensures Answered(SendReply(s, step, luck).sent, ReplyGoesOut(s, luck), s.ptk, s.counter, s.snonce)
  {
    hide SendReply, Accepts, Signed, Reply, ReplyGoesOut;
    ReplySent(s, step, luck);
    ReplyAccepted(s.ptk, step, s.counter, s.snonce, s.target.groupCipher == Tkip);
  }

  /** Message 1, with anything behind it: the station derives the authenticator's key, and the
      authenticator accepts message 2 under it if that can be sent. */
  lemma Message1Answered(s: Sta, f: KeyFrame, mic: Mic, tail: bytes, snonce: Nonce, luck: Luck)
    requires s.state == Handshaking
    requires IsMessage1(f.info) && 95 + |f.data| < 0x1_0000
    ensures var o := Step(s, EapolData(Encode(f, mic) + tail, snonce, luck));
            var ptk := AuthenticatorPtk(s, f.nonce, snonce);
      && o.sta == s.(ptk := ptk, derived := true, anonce := f.nonce, snonce := snonce, counter := f.counter,
                     dataSeq := o.sta.dataSeq, txSeq := o.sta.txSeq, pn := o.sta.pn, sent := o.sta.sent)
      && Answered(o.sent, ReplyGoesOut(s, luck), ptk, f.counter, snonce)
  {
    hide Encode, Number, PtkOf, SendReply, Answered, Message3, Signed, Reply, MicOk, MicOf, ReplyGoesOut;
    ReadThroughTail(f, mic, tail);
    PtkSymmetric(s.pmk, f.nonce, snonce, s.mac, s.target.bssid);
    PtkSymmetric(s.pmk, f.nonce, snonce, s.target.bssid, s.mac);
    var data := Encode(f, mic) + tail;
    var ptk := PtkOf(s.pmk, f.nonce, snonce, s.mac, s.target.bssid);
    var t := s.(anonce := f.nonce, snonce := snonce, ptk := ptk, counter := f.counter, derived := true);
    assert Message1(s, data, snonce, luck) == SendReply(t, 2, luck);
    ReplyFrame(t, 2, luck);
    ReplyAnswers(t, 2, luck);
    assert ReplyGoesOut(t, luck) == ReplyGoesOut(s, luck) by { SameWay(s, t, luck); }
  }

  lemma SameWay(s: Sta, t: Sta, luck: Luck)
    requires t.attached == s.attached && t.peer == s.peer
    ensures ReplyGoesOut(t, luck) == ReplyGoesOut(s, luck)
  {
  }

  lemma ReplyFrame(s: Sta, step: nat, luck: Luck)
    ensures var t := SendReply(s, step, luck).sta;
      t == s.(dataSeq := t.dataSeq, txSeq := t.txSeq, pn := t.pn, sent := t.sent)
  {
    hide Signed, Reply, Counted, NextSeqCtrl;
    CountedKeeps(s, false);
  }

  /** The key data of message 3: elements, the group key, padding. */
  function KeyData(es: seq<Kde.Element>, keyId: bv8, gtk: bytes, padding: bytes): bytes
    requires Kde.Chain(es) && |gtk| < 250
  {
    hide Kde.EncodeAll, Kde.Encode, Kde.GtkElement;
    Kde.GtkElementIsGtk(keyId, gtk);
    Kde.EncodeAll(es) + Kde.Encode(Kde.GtkElement(keyId, gtk)) + padding
  }

  /** What the station can do with a group key of this length: it passes over an empty one and one over 32 bytes. */
  predicate Ignored(gtk: bytes) {
    |gtk| == 0 || |gtk| > 32
  }

  predicate Usable(s: Sta, gtk: bytes) {
    |gtk| == if GroupCipher(s) == Tkip then 32 else 16
  }

  function GtkIn(keyId: bv8, gtk: bytes): Option<Kde.Gtk> {
    if |gtk| <= 32 then Some(Kde.Gtk(gtk, keyId & 0x3)) else None
  }

  /** Whether the group key goes in; an ignored one is not even tried. */
  predicate GroupGoesIn(s: Sta, gtk: bytes, luck: Luck) {
    Usable(s, gtk) && luck.groupMemory && luck.groupSet
  }

  predicate PairwiseGoesIn(luck: Luck) {
    luck.pairwiseMemory && luck.pairwiseSet
  }

  /** The end of the handshake as the station and the authenticator see it. Connecting does not depend on
      whether message 4 can be sent. */
  ghost predicate Finished(s: Sta, keyId: bv8, gtk: bytes, counter: Counter, luck: Luck, o: Outcome) {
    && o.sta.ptk == s.ptk && o.sta.derived == s.derived
    && o.sta.pairwise == (if PairwiseGoesIn(luck) then Some(KeyConf(Ccmp, 0, s.ptk[32..48])) else None)
    && (PairwiseGoesIn(luck) && GroupGoesIn(s, gtk, luck) ==> o.sta.group == Some(KeyConf(GroupCipher(s), keyId & 0x3, gtk)))
    && (o.sta.state == Connected <==> PairwiseGoesIn(luck) && (Ignored(gtk) || GroupGoesIn(s, gtk, luck)))
    && (o.sta.state == Connected ==> o.sta.link)
    && Answered(o.sent, o.sta.state == Connected && ReplyGoesOut(s, luck), s.ptk, counter, s.snonce)
  }

  lemma LastReplyAccepted(s: Sta, luck: Luck)
    ensures var o := LastReply(s, luck);
      && o.sta.state == Connected && o.sta.link && o.sta.pairwise == s.pairwise && o.sta.group == s.group && o.sta.ptk == s.ptk
      && o.sta.derived == s.derived
      && Answered(o.sent, ReplyGoesOut(s, luck), s.ptk, s.counter, s.snonce)
  {
    hide SendReply, Answered, ReplyGoesOut;
    ReplyFrame(s, 4, luck);
    ReplyAnswers(s, 4, luck);
  }

  /** The group key: in, passed over, or refused. */
  lemma GroupInstalled(s: Sta, keyId: bv8, gtk: bytes, luck: Luck)
    requires s.attached && s.state == Handshaking
    ensures var o := Complete(s, GtkIn(keyId, gtk), luck);
      && o.sta.pairwise == s.pairwise && o.sta.ptk == s.ptk && o.sta.derived == s.derived
      && (GroupGoesIn(s, gtk, luck) ==> o.sta.group == Some(KeyConf(GroupCipher(s), keyId & 0x3, gtk)))
      && (o.sta.state == Connected <==> Ignored(gtk) || GroupGoesIn(s, gtk, luck))
      && (o.sta.state == Connected ==> o.sta.link)
      && Answered(o.sent, o.sta.state == Connected && ReplyGoesOut(s, luck), s.ptk, s.counter, s.snonce)
  {
    hide LastReply, Accepts, InstallGroup, ReplyGoesOut;
    if Ignored(gtk) {
      LastReplyAccepted(s, luck);
    } else {
      var (t, ok) := InstallGroup(s, keyId & 0x3, GroupCipher(s), gtk, luck.groupMemory, luck.groupSet);
      GroupKeeps(s, keyId & 0x3, GroupCipher(s), gtk, luck.groupMemory, luck.groupSet);
      GroupTaken(s, keyId & 0x3, gtk, luck);
      SameWay(s, t, luck);
      if ok {
        LastReplyAccepted(t, luck);
      }
    }
  }

  lemma GroupTaken(s: Sta, index: bv8, gtk: bytes, luck: Luck)
    requires s.attached && !Ignored(gtk)
    ensures var (t, ok) := InstallGroup(s, index, GroupCipher(s), gtk, luck.groupMemory, luck.groupSet);
      (ok <==> GroupGoesIn(s, gtk, luck)) && (ok ==> t.group == Some(KeyConf(GroupCipher(s), index, gtk)))
  {
  }

  lemma AfterPairwise(s: Sta, t: Sta, keyId: bv8, gtk: bytes, luck: Luck)
    requires s.attached && s.state == Handshaking && PairwiseGoesIn(luck)
    requires t == s.(pairwise := Some(KeyConf(Ccmp, 0, s.ptk[32..48])), installs := t.installs, sent := t.sent, pn := t.pn)
    ensures Finished(s, keyId, gtk, s.counter, luck, Complete(t, GtkIn(keyId, gtk), luck))
  {
    hide Complete, GtkIn, Answered, ReplyGoesOut;
    SameWay(s, t, luck);
    GroupInstalled(t, keyId, gtk, luck);
  }

  lemma PairwiseRefused(s: Sta, keyId: bv8, gtk: bytes, luck: Luck)
    requires s.state == Handshaking && !PairwiseGoesIn(luck)
    ensures Finished(s, keyId, gtk, s.counter, luck, Outcome(s.(pairwise := None), []))
  {
    hide Answered;
    NothingAnswered(s.ptk, s.counter, s.snonce);
  }

  lemma PairwiseTaken(s: Sta, luck: Luck)
    requires s.attached
    ensures var (t, ok) := InstallPairwise(s, 0, Ccmp, s.ptk[32..48], luck.pairwiseMemory, luck.pairwiseSet);
      && ok == PairwiseGoesIn(luck)
      && t == if ok then s.(pairwise := Some(KeyConf(Ccmp, 0, s.ptk[32..48])), installs := t.installs, sent := t.sent, pn := t.pn)
              else s.(pairwise := None)
  {
    hide NoPn;
  }

  /** The end of the handshake: pairwise key in; group key in, passed over, or refused. */
  lemma KeysInstalled(s: Sta, keyId: bv8, gtk: bytes, luck: Luck)
    requires s.attached && s.state == Handshaking
    ensures Finished(s, keyId, gtk, s.counter, luck, Install(s, GtkIn(keyId, gtk), luck))
  {
    hide Complete, InstallPairwise, GtkIn, Finished;
    PairwiseTaken(s, luck);
    if PairwiseGoesIn(luck) {
      AfterPairwise(s, InstallPairwise(s, 0, Ccmp, s.ptk[32..48], luck.pairwiseMemory, luck.pairwiseSet).0, keyId, gtk, luck);
    } else {
      PairwiseRefused(s, keyId, gtk, luck);
    }
  }

  lemma NothingAnswered(ptk: Ptk, counter: Counter, snonce: Nonce)
    ensures Answered([], false, ptk, counter, snonce)
  {
  }

  /** Message 3 signed and wrapped under the station's key, whatever allocations, driver calls and copies do:
      without memory for the MIC check nothing happens; otherwise the station connects exactly when the pairwise
      key goes in and the group key goes in or is passed over. */
  lemma Message3Installs(s: Sta, f: KeyFrame, es: seq<Kde.Element>, keyId: bv8, gtk: bytes, padding: bytes, tail: bytes,
                         snonce: Nonce, luck: Luck)
    requires s.state == Handshaking && s.attached && IsMessage3(f.info)
    requires Kde.Chain(es) && |gtk| < 250
    requires var plain := KeyData(es, keyId, gtk, padding);
      |plain| <= 256 && |plain| % 8 == 0 && f.data == KeyWrap.Wrap(s.ptk[16..32], plain)
    ensures var o := Step(s, EapolData(Signed(f, s.ptk[..16]) + tail, snonce, luck));
      if luck.micMemory then Finished(s, keyId, gtk, f.counter, luck, o) else o == Outcome(s, [])
  {
    hide Encode, Number, SendReply, Finished, Message1, Reply, MicOk, MicOf, KeyWrap.UnwrapResult, KeyWrap.Wrap, Kde.GtkOf,
      Install, KeyData;
    var plain := KeyData(es, keyId, gtk, padding);
    KeyDataRead(s.ptk[16..32], es, keyId, gtk, padding);
    var kck := s.ptk[..16];
    SignedPasses(f, kck);
    var mic := MicOf(kck, Encode(f, Zeros(16)));
    ReadThroughTail(f, mic, tail);
    Kinds(f.info);
    var data := Signed(f, kck) + tail;
    if luck.micMemory {
      var t := s.(counter := f.counter);
      assert ClearKeyData(s.ptk[16..32], f.info, f.data) == Some(plain);
      assert Message3(s, data, 99 + |f.data|, luck) == Install(t, GtkIn(keyId, gtk), luck);
      KeysInstalled(t, keyId, gtk, luck);
      FinishedAlike(s, t, keyId, gtk, luck, Install(t, GtkIn(keyId, gtk), luck));
    }
  }

  lemma FinishedAlike(s: Sta, t: Sta, keyId: bv8, gtk: bytes, luck: Luck, o: Outcome)
    requires t == s.(counter := t.counter) && Finished(t, keyId, gtk, t.counter, luck, o)
    ensures Finished(s, keyId, gtk, t.counter, luck, o)
  {
    hide Answered;
  }

  lemma KeyDataRead(kek: bytes, es: seq<Kde.Element>, keyId: bv8, gtk: bytes, padding: bytes)
    requires |kek| == 16 && Kde.Chain(es) && |gtk| < 250
    requires |KeyData(es, keyId, gtk, padding)| <= 256 && |KeyData(es, keyId, gtk, padding)| % 8 == 0
    ensures var plain := KeyData(es, keyId, gtk, padding);
      && KeyWrap.UnwrapResult(kek, KeyWrap.Wrap(kek, plain)) == Some(plain)
      && 16 <= |KeyWrap.Wrap(kek, plain)| <= 264
      && Kde.GtkOf(plain) == if |gtk| <= 32 then Some(Kde.Gtk(gtk, keyId & 0x3)) else None
  {
    hide KeyWrap.UnwrapResult, KeyWrap.Wrap, Kde.EncodeAll, Kde.GtkElement, Kde.GtkOf;
    Kde.GtkElementIsGtk(keyId, gtk);
    Kde.GtkDelivered(es, keyId, gtk, padding);
    var plain := KeyData(es, keyId, gtk, padding);
    KeyWrap.UnwrapInvertsWrap(kek, KeyWrap.Wrap(kek, plain), plain);
    KeyWrap.UnwrapSize(kek, KeyWrap.Wrap(kek, plain));
  }

  /** The whole handshake. Whatever nonces, counters, elements and trailing bytes the access point sends, and
      whatever allocations, copies and driver calls do: it accepts message 2, if that can be sent, under the key
      it derives from the nonce in it; when it then sends the group key signed and wrapped under that key, the
      station, if it can check the MIC, ends as Finished says, with the temporal key of the access point. */
  lemma HandshakeAgrees(s: Sta, f1: KeyFrame, mic: Mic, tail1: bytes, snonce: Nonce, luck1: Luck,
                        f3: KeyFrame, es: seq<Kde.Element>, keyId: bv8, gtk: bytes, padding: bytes, tail3: bytes,
                        unused: Nonce, luck3: Luck)
    requires s.state == Handshaking && s.attached
    requires IsMessage1(f1.info) && 95 + |f1.data| < 0x1_0000
    requires IsMessage3(f3.info) && Kde.Chain(es) && |gtk| < 250
    requires var plain := KeyData(es, keyId, gtk, padding);
      |plain| <= 256 && |plain| % 8 == 0 && f3.data == KeyWrap.Wrap(AuthenticatorPtk(s, f1.nonce, snonce)[16..32], plain)
    ensures var ptk := AuthenticatorPtk(s, f1.nonce, snonce);
            var o1 := Step(s, EapolData(Encode(f1, mic) + tail1, snonce, luck1));
            var o3 := Step(o1.sta, EapolData(Signed(f3, ptk[..16]) + tail3, unused, luck3));
      && o1.sta.ptk == ptk && o1.sta.derived && o1.sta.snonce == snonce
      && Answered(o1.sent, ReplyGoesOut(s, luck1), ptk, f1.counter, snonce)
      && if luck3.micMemory then Finished(o1.sta, keyId, gtk, f3.counter, luck3, o3) else o3 == Outcome(o1.sta, [])
  {
    hide Encode, Step, AuthenticatorPtk, KeyData, Answered, Finished, Signed, KeyWrap.Wrap;
    Message1Answered(s, f1, mic, tail1, snonce, luck1);
    var t := Step(s, EapolData(Encode(f1, mic) + tail1, snonce, luck1)).sta;
    Message3Installs(t, f3, es, keyId, gtk, padding, tail3, unused, luck3);
  }

  lemma ScanStaysDown(s: Sta, ended: bool)
    requires Safe(s) && s.state != Connected
    ensures FinishScan(s).state != Connected && AbortScan(s, ended).state != Connected && Resume(s).state != Connected
  {
    hide LittleEndian;
  }

  lemma StaysDown(s: Sta, e: Event)
    requires Safe(s) && s.state != Connected && !e.EapolData? && !e.AssocResponse?
    ensures Step(s, e).sta.state != Connected
  {
    hide LittleEndian, FinishScan, ReleasePeer, ClearKeys, Disconnected, TxData, Number, OnDeauth, PowerDown, Stopped, OnAuth,
      OnTimer, Connecting, Started, PoweredUp, StartScan, Hop, EndManual, Fire;
    ScanStaysDown(s, false);
    match e {
      case Start(probed, present, powered) => StartStaysDown(s, probed, present, powered);
      case PowerOn(accepted) => PowerStaysDown(s, accepted);
      case Scan(channels, offload, accepted, thread) => StartScanStaysDown(s, channels, offload, accepted, thread);
      case ManualHop(home) => FlagsStayDown(s, home);
      case ManualScanEnds => FlagsStayDown(FinishScan(s), false);
      case ConnectFires => FireStaysDown(s);
      case Connect(_, _, _, _, _) => ConnectStaysDown(s, e);
      case Disconnect => DisconnectedKeeps(s);
      case Timer => TimerStaysDown(s);
      case AuthResponse(addr3, body) => AuthStaysDown(s, addr3, body);
      case Deauth(addr1, addr2, addr3) => DeauthStaysDown(s, addr1, addr2, addr3);
      case PowerOff(ended) => OffStaysDown(s, ended);
      case Stop => OffStaysDown(s, false);
      case Output(_, _, _, _, _) => OutputStaysDown(s);
      case _ =>
    }
  }

  lemma StartStaysDown(s: Sta, probed: bool, present: bool, powered: bool)
    requires s.state != Connected
    ensures Started(s, probed, present, powered).state != Connected
  {
  }

  lemma PowerStaysDown(s: Sta, accepted: bool)
    requires s.state != Connected
    ensures PoweredUp(s, accepted).state != Connected
  {
  }

  lemma StartScanStaysDown(s: Sta, channels: nat, offload: bool, accepted: bool, thread: bool)
    requires s.state != Connected
    ensures StartScan(s, channels, offload, accepted, thread).state != Connected
  {
  }

  lemma FlagsStayDown(s: Sta, home: bool)
    requires s.state != Connected
    ensures Hop(s, home).state != Connected && EndManual(s).state != Connected
  {
  }

  lemma FireStaysDown(s: Sta)
    requires s.state != Connected
    ensures Fire(s).state != Connected
  {
  }

  lemma TimerStaysDown(s: Sta)
    requires Safe(s) && s.state != Connected
    ensures OnTimer(s).state != Connected
  {
    hide LittleEndian, Disconnected, Resume;
    ScanStaysDown(s, false);
    DisconnectedKeeps(s);
  }

  lemma AuthStaysDown(s: Sta, addr3: Address, body: bytes)
    requires s.state != Connected
    ensures OnAuth(s, addr3, body).state != Connected
  {
    hide Number, Associate;
    AssociateStaysDown(s);
  }

  lemma AssociateStaysDown(s: Sta)
    requires s.state != Connected
    ensures Associate(s).state != Connected
  {
  }

  lemma DeauthStaysDown(s: Sta, addr1: Address, addr2: Address, addr3: Address)
    requires s.state != Connected
    ensures OnDeauth(s, addr1, addr2, addr3).state != Connected
  {
    hide EndsConnection, ClearKeys;
  }

  lemma OffStaysDown(s: Sta, ended: bool)
    ensures PowerDown(s, ended).state != Connected && Stopped(s).state != Connected
  {
    hide AbortScan, Leave;
  }

  lemma OutputStaysDown(s: Sta)
    requires Safe(s) && s.state != Connected
    ensures !MaySend(s)
  {
  }

  lemma ConnectStaysDown(s: Sta, e: Event)
    requires Safe(s) && s.state != Connected && e.Connect?
    ensures Step(s, e).sta.state != Connected
  {
    hide LittleEndian, AbortScan, CString;
    ScanStaysDown(s, e.ended);
  }

  lemma AssocOpens(s: Sta, addr3: Address, body: bytes, memory: bool)
    requires s.state != Connected && OnAssoc(s, addr3, body, memory).state == Connected
    ensures !s.wpa2 && !OnAssoc(s, addr3, body, memory).wpa2
  {
    hide Number, Associated;
    AssociatedOpens(s, memory);
  }

  lemma AssociatedOpens(s: Sta, memory: bool)
    ensures Associated(s, memory).wpa2 == s.wpa2 && (Associated(s, memory).state == Connected ==> !s.wpa2)
  {
    hide Pbkdf2;
  }

  /** A message 3 whose MIC is right under the station's current key and whose key data, when it says it is
      encrypted, is a key wrap under it. */
  ghost predicate Authentic(ptk: Ptk, data: bytes) {
    hide KeyWrap.Wrap;
    && |data| >= 99
    && var n := 4 + Number(data[2], data[3]); var m := Number(data[97], data[98]);
      && n <= |data| && 99 + m <= n && Info(data) & 0x01c8 == 0x01c8 && MicOk(ptk[..16], data[..n])
      && (Info(data) & 0x1000 != 0 && m > 0 ==> IsWrapped(ptk[16..32], data[99..99 + m]))
  }

  ghost predicate IsWrap(kek: bytes, plain: bytes, wrapped: bytes)
    requires |kek| == 16
  {
    8 <= |plain| <= 256 && |plain| % 8 == 0 && wrapped == KeyWrap.Wrap(kek, plain)
  }

  ghost predicate IsWrapped(kek: bytes, wrapped: bytes)
    requires |kek| == 16
  {
    exists plain: bytes :: IsWrap(kek, plain, wrapped)
  }

  lemma Unwrapped(kek: bytes, wrapped: bytes)
    requires |kek| == 16 && KeyWrap.UnwrapResult(kek, wrapped).Some?
    ensures IsWrapped(kek, wrapped)
  {
    hide KeyWrap.UnwrapResult, KeyWrap.Wrap;
    KeyWrap.UnwrapSize(kek, wrapped);
    KeyWrap.UnwrapInvertsWrap(kek, wrapped, KeyWrap.UnwrapResult(kek, wrapped).value);
    assert IsWrap(kek, KeyWrap.UnwrapResult(kek, wrapped).value, wrapped);
  }

  lemma EapolConnects(s: Sta, data: bytes, snonce: Nonce, luck: Luck)
    requires s.state == Handshaking && HandleEapol(s, data, snonce, luck).sta.state == Connected
    ensures Authentic(s.ptk, data)
  {
    hide Number, MicOk, KeyWrap.UnwrapResult, KeyWrap.Wrap, Kde.GtkOf, SendReply, PtkOf, Install, Info, IsWrapped;
    var n := 4 + Number(data[2], data[3]);
    ReplyState(s, data, snonce, luck);
    var m := Number(data[97], data[98]);
    if Info(data) & 0x1000 != 0 && m > 0 && 99 + m <= n {
      var wrapped := data[99..99 + m];
      if KeyWrap.UnwrapResult(s.ptk[16..32], wrapped).Some? {
        Unwrapped(s.ptk[16..32], wrapped);
      }
    }
  }

  lemma ReplyState(s: Sta, data: bytes, snonce: Nonce, luck: Luck)
    requires |data| >= 99
    ensures Message1(s, data, snonce, luck).sta.state == s.state
  {
    hide PtkOf, Signed, Reply, Incremented, SeqCtrl;
  }

  /** A WPA2 link comes up in no other way than by an authentic message 3 of the handshake in progress. */
  lemma OnlyAuthenticConnects(s: Sta, e: Event)
    requires Safe(s) && s.state != Connected && Step(s, e).sta.state == Connected && Step(s, e).sta.wpa2
    ensures s.state == Handshaking && e.EapolData? && Authentic(s.ptk, e.data)
  {
    hide HandleEapol, OnAssoc, Authentic, Safe;
    if e.AssocResponse? {
      AssocOpens(s, e.addr3, e.body, e.memory);
    } else if !e.EapolData? {
      StaysDown(s, e);
    } else {
      EapolConnects(s, e.data, e.snonce, e.luck);
    }
  }
}
