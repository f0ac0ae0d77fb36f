/** What holds in every reachable state of the station, and of every frame it sends. */
module StationSafety {
  import opened Bytes
  import opened Options
  import opened Amsdu
  import opened DataFrame
  import opened KeyDerivation
  import opened Eapol
  import opened StationSpec
  import Kde

  const PN_RANGE: nat := 0x1_0000_0000_0000

  /** The pairwise key a WPA2 link must be using: the temporal key of the current PTK. */
  function TemporalKey(s: Sta): Option<KeyConf> {
    Some(KeyConf(Ccmp, 0, s.ptk[32..48]))
  }

  ghost predicate Safe(s: Sta) {
    && s.scanReturn == Idle && s.state != Disconnecting && !s.onHome
    && (s.state in {Associating, Handshaking, Connected} ==> s.attached)
    && (s.state == Connected ==> s.link && (s.wpa2 ==> s.pairwise == TemporalKey(s)))
    && LittleEndian(s.pn) == s.sent % PN_RANGE
  }

  // Where the next protected frame of a station will be: installation and number within it.

  datatype Position = Position(epoch: nat, ordinal: nat)

  function At(s: Sta): Position {
    if s.pairwise.Some? then Position(s.installs, s.sent) else Position(s.installs + 1, 0)
  }

  predicate Before(p: Position, q: Position) {
    p.epoch < q.epoch || (p.epoch == q.epoch && p.ordinal < q.ordinal)
  }

  predicate AtMost(p: Position, q: Position) {
    p == q || Before(p, q)
  }

  function Of(x: Sent): Position {
    Position(x.epoch, x.ordinal)
  }

  /** A frame sent by a station in state s. */
  ghost predicate Proper(s: Sta, x: Sent) {
    && (x.content.key.Some? <==> x.key.Some?)
    && (s.wpa2 && x.content.etherType != PAE ==> x.key == TemporalKey(s))
    && (x.key.Some? ==> LittleEndian(x.content.pn) == x.ordinal % PN_RANGE)
  }

  /** One event: the invariant is kept, every frame is proper, and the protected ones move forward. */
  ghost predicate GoodOutcome(s: Sta, o: Outcome) {
    && Safe(o.sta)
    && |o.sent| <= 1
    && (forall x :: x in o.sent ==> Proper(s, x))
    && AtMost(At(s), At(o.sta))
    && (forall x :: x in o.sent && x.key.Some? ==> Before(At(s), Of(x)) && AtMost(Of(x), At(o.sta)))
  }

  /** The part of it for an event that sends nothing. */
  ghost predicate Kept(s: Sta, t: Sta) {
    Safe(t) && AtMost(At(s), At(t))
  }

  lemma NextPn(pn: Pn, sent: nat)
    requires LittleEndian(pn) == sent % PN_RANGE
    ensures LittleEndian(Incremented(pn)) == (sent + 1) % PN_RANGE
  {
    hide Incremented, LittleEndian;
    IncrementAddsOne(pn);
    SixBytes();
    assert Pow256(|pn|) == PN_RANGE;
  }

  lemma ZeroPn()
    ensures LittleEndian(NoPn()) == 0
  {
    ByteEnds();
    hide Val;
    assert LittleEndian(NoPn()[1..]) == 0 by {
      ZeroBytes(NoPn()[1..]);
    }
  }

  lemma {:induction false} ZeroBytes(b: bytes)
    requires forall i :: 0 <= i < |b| ==> b[i] == 0
    ensures LittleEndian(b) == 0
  {
    ByteEnds();
    hide Val;
    if |b| > 0 {
      ZeroBytes(b[1..]);
    }
  }

  lemma DropOnly(s: Sta)
    ensures ReleasePeer(ClearKeys(s)).attached == s.attached && ReleasePeer(ClearKeys(s)).powered == s.powered
  {
    hide NoPn, NoPtk;
  }

  lemma LeaveOnly(s: Sta, joined: bool)
    ensures Leave(s, joined).attached == s.attached && Leave(s, joined).powered == s.powered
  {
    hide ReleasePeer, ClearKeys;
    DropOnly(s);
  }

  lemma OnlyPairwise(s: Sta, index: bv8, cipher: Cipher, key: bytes, memory: bool, accepted: bool)
    ensures var t := InstallPairwise(s, index, cipher, key, memory, accepted).0;
      t == s.(pairwise := t.pairwise, installs := t.installs, sent := t.sent, pn := t.pn)
  {
    hide NoPn;
  }

  lemma OnlyKeys(s: Sta, pairwise: bool, index: bv8, cipher: Cipher, key: bytes, memory: bool, accepted: bool)
    ensures var t := InstallInto(s, pairwise, index, cipher, key, memory, accepted).0;
      t == s.(pairwise := t.pairwise, group := t.group, installs := t.installs, sent := t.sent, pn := t.pn)
  {
    hide InstallPairwise, InstallGroup;
    if pairwise {
      OnlyPairwise(s, index, cipher, key, memory, accepted);
    } else {
      GroupKeeps(s, index, cipher, key, memory, accepted);
    }
  }

  lemma CountedKeeps(s: Sta, protected: bool)
    ensures var t := Counted(s, protected); t == s.(pn := t.pn, sent := t.sent, dataSeq := t.dataSeq, txSeq := t.txSeq)
  {
    hide Incremented;
  }

  /** Sending a frame: from a connected WPA2 link anything but EAPOL goes out under the temporal key. */
  lemma TxKeeps(s: Sta, da: Address, etherType: EtherType, payload: bytes, memory: bool, copied: bool)
    requires Safe(s) && (etherType == PAE || s.state == Connected)
    ensures GoodOutcome(s, TxData(s, da, etherType, payload, memory, copied))
    ensures var t := TxData(s, da, etherType, payload, memory, copied).sta;
      t == s.(pn := t.pn, sent := t.sent, dataSeq := t.dataSeq, txSeq := t.txSeq)
    ensures etherType == PAE ==> At(TxData(s, da, etherType, payload, memory, copied).sta) == At(s)
  {
    hide Incremented, LittleEndian, SeqCtrl;
    NextPn(s.pn, s.sent);
  }

  lemma ClearKeeps(s: Sta)
    ensures LittleEndian(ClearKeys(s).pn) == 0 && AtMost(At(s), At(ClearKeys(s)))
  {
    ZeroPn();
  }

  lemma ReplyKeeps(s: Sta, step: nat, luck: Luck)
    requires Safe(s)
    ensures GoodOutcome(s, SendReply(s, step, luck)) && At(SendReply(s, step, luck).sta) == At(s)
    ensures var t := SendReply(s, step, luck).sta; t == s.(pn := t.pn, sent := t.sent, dataSeq := t.dataSeq, txSeq := t.txSeq)
  {
    hide TxData, Signed, Reply, GoodOutcome, Safe;
    TxKeeps(s, s.target.bssid, PAE, Signed(Reply(step, s.counter, s.snonce, s.target.groupCipher == Tkip), s.ptk[..16]),
            luck.txMemory, luck.txCopied);
  }

  /** Frames a station in state t sends are proper for s as well when both would use the same key, or only EAPOL is sent. */
  lemma SameProper(s: Sta, t: Sta, o: Outcome)
    requires GoodOutcome(t, o) && AtMost(At(s), At(t))
    requires forall x :: x in o.sent ==> x.content.etherType == PAE
    ensures GoodOutcome(s, o)
  {
  }

  lemma ReplyIsEapol(s: Sta, step: nat, luck: Luck)
    ensures forall x :: x in SendReply(s, step, luck).sent ==> x.content.etherType == PAE
  {
    hide Signed, Reply, SeqCtrl, Incremented;
  }

  lemma Message1Keeps(s: Sta, data: bytes, snonce: Nonce, luck: Luck)
    requires Safe(s) && s.state == Handshaking && |data| >= 99
    ensures GoodOutcome(s, Message1(s, data, snonce, luck))
  {
    hide PtkOf, SendReply, GoodOutcome, LittleEndian;
    var anonce: Nonce := data[17..49];
    var t := s.(anonce := anonce, snonce := snonce, ptk := PtkOf(s.pmk, anonce, snonce, s.mac, s.target.bssid), counter := data[9..17],
                derived := true);
    ReplyKeeps(t, 2, luck);
    ReplyIsEapol(t, 2, luck);
    SameProper(s, t, SendReply(t, 2, luck));
  }

  /** Installing the pairwise key starts a new installation; on failure no pairwise key remains in use. */
  lemma InstallKeeps(s: Sta, memory: bool, accepted: bool)
    requires Safe(s) && s.state == Handshaking
    ensures var r := InstallPairwise(s, 0, Ccmp, s.ptk[32..48], memory, accepted);
      && Safe(r.0) && AtMost(At(s), At(r.0)) && (r.1 ==> r.0.pairwise == TemporalKey(r.0))
      && r.0.state == Handshaking
  {
    hide LittleEndian;
    ZeroPn();
  }

  lemma GroupKeeps(s: Sta, index: bv8, cipher: Cipher, key: bytes, memory: bool, accepted: bool)
    ensures var r := InstallGroup(s, index, cipher, key, memory, accepted); r.0 == s.(group := r.0.group)
  {
  }

  lemma NothingSent(s: Sta, t: Sta)
    requires Safe(t) && AtMost(At(s), At(t))
    ensures GoodOutcome(s, Outcome(t, []))
  {
  }

  lemma ConnectedKeeps(s: Sta, o: Outcome)
    requires GoodOutcome(s, o) && o.sta.attached && o.sta.pairwise == TemporalKey(o.sta)
    ensures GoodOutcome(s, Outcome(o.sta.(state := Connected, link := true), o.sent))
  {
  }

  /** The end of the handshake once the pairwise key is in: message 4, then connected. */
  lemma LastReplyKeeps(s: Sta, t: Sta, luck: Luck)
    requires Kept(s, t) && t.attached && t.pairwise == TemporalKey(t)
    ensures GoodOutcome(s, LastReply(t, luck))
  {
    hide SendReply, GoodOutcome, LittleEndian;
    ReplyKeeps(t, 4, luck);
    ReplyIsEapol(t, 4, luck);
    var o := SendReply(t, 4, luck);
    assert o.sta.ptk == t.ptk && o.sta.pairwise == t.pairwise && o.sta.attached;
    SameProper(s, t, o);
    ConnectedKeeps(s, o);
  }

  lemma CompleteKeeps(s: Sta, t: Sta, gtk: Option<Kde.Gtk>, luck: Luck)
    requires Kept(s, t) && t.attached && t.pairwise == TemporalKey(t)
    ensures GoodOutcome(s, Complete(t, gtk, luck))
  {
    hide InstallGroup, LastReply, GoodOutcome, Safe, At, LittleEndian;
    if gtk.None? || |gtk.value.key| == 0 {
      LastReplyKeeps(s, t, luck);
    } else {
      var (u, ok) := InstallGroup(t, gtk.value.index, GroupCipher(t), gtk.value.key, luck.groupMemory, luck.groupSet);
      GroupKeeps(t, gtk.value.index, GroupCipher(t), gtk.value.key, luck.groupMemory, luck.groupSet);
      GroupAside(s, t, u);
      if ok {
        LastReplyKeeps(s, u, luck);
      } else {
        NothingSent(s, u);
      }
    }
  }

  lemma FinishKeeps(s: Sta, gtk: Option<Kde.Gtk>, luck: Luck)
    requires Safe(s) && s.state == Handshaking
    ensures GoodOutcome(s, Install(s, gtk, luck))
  {
    hide InstallPairwise, Complete, GoodOutcome, LittleEndian;
    InstallKeeps(s, luck.pairwiseMemory, luck.pairwiseSet);
    var (t, ok) := InstallPairwise(s, 0, Ccmp, s.ptk[32..48], luck.pairwiseMemory, luck.pairwiseSet);
    if ok {
      CompleteKeeps(s, t, gtk, luck);
    } else {
      NothingSent(s, t);
    }
  }

  /** The group key plays no part in the invariant. */
  lemma GroupAside(s: Sta, t: Sta, u: Sta)
    requires Kept(s, t) && u == t.(group := u.group)
    ensures Kept(s, u) && u.attached == t.attached && u.ptk == t.ptk && u.pairwise == t.pairwise
  {
    hide LittleEndian;
  }

  lemma EapolKeeps(s: Sta, data: bytes, snonce: Nonce, luck: Luck)
    requires Safe(s) && s.state == Handshaking
    ensures GoodOutcome(s, HandleEapol(s, data, snonce, luck))
  {
    hide Number, Message1, Install, MicOk, ClearKeyData, Kde.GtkOf, GoodOutcome, LittleEndian;
    NothingSent(s, s);
    if |data| >= 99 && data[1] == 3 {
      var eapolLen := 4 + Number(data[2], data[3]);
      Message1Keeps(s, data, snonce, luck);
      if 99 <= eapolLen <= |data| {
        Message3Keeps(s, data, eapolLen, luck);
      }
    }
  }

  lemma Message3Keeps(s: Sta, data: bytes, eapolLen: nat, luck: Luck)
    requires Safe(s) && s.state == Handshaking && 99 <= eapolLen <= |data|
    ensures GoodOutcome(s, Message3(s, data, eapolLen, luck))
  {
    hide Number, Install, MicOk, ClearKeyData, Kde.GtkOf, LittleEndian;
    NothingSent(s, s);
    var n := Number(data[97], data[98]);
    if 99 + n <= eapolLen {
      var clear := ClearKeyData(s.ptk[16..32], Info(data), data[99..99 + n]);
      if clear.Some? {
        FinishKeeps(s.(counter := data[9..17]), Kde.GtkOf(clear.value), luck);
        assert At(s.(counter := data[9..17])) == At(s);
      }
    }
  }

  // Events that send no data frame.

  /** No reachable scan was started from anywhere but the idle state, so every scan ends there. */
  lemma ResumeKeeps(s: Sta)
    requires Safe(s)
    ensures Resume(s) == s.(state := Idle) && Kept(s, Resume(s))
  {
    hide LittleEndian;
  }

  lemma ScanKeeps(s: Sta, ended: bool)
    requires Safe(s)
    ensures FinishScan(s) == if s.state == Scanning then s.(state := Idle) else s
    ensures Kept(s, FinishScan(s)) && Kept(s, AbortScan(s, ended))
  {
    hide LittleEndian, Resume, At;
    ResumeKeeps(s);
    if s.state == Scanning && !ended && s.manual == 0 {
      assert AbortScan(s, ended) == s.(state := Idle);
    }
  }

  /** An event that leaves the keys alone and moves at most to a state no key is promised in. */
  lemma SameKeysKeep(s: Sta, t: Sta)
    requires Safe(s) && (t.state == s.state || t.state in {Idle, Scanning, Authenticating})
    requires s.scanReturn == Idle && !s.onHome ==> t.scanReturn == Idle && !t.onHome
    requires t.state == s.state && s.state != Idle ==> (s.attached ==> t.attached) && t.link == s.link && t.wpa2 == s.wpa2
    requires t.ptk == s.ptk && t.pairwise == s.pairwise && t.pn == s.pn && t.sent == s.sent && t.installs == s.installs
    ensures Kept(s, t)
  {
    hide LittleEndian;
  }

  lemma KeptOn(s: Sta, t: Sta, u: Sta)
    requires Kept(s, t) && Kept(t, u)
    ensures Kept(s, u)
  {
    hide Safe, At;
  }

  /** Forgetting keys and peer, with the state and link put to rest. */
  lemma DropKeeps(s: Sta)
    requires Safe(s)
    ensures var t := ReleasePeer(ClearKeys(s));
      && t.state == s.state && t.scanReturn == Idle && !t.onHome && t.pairwise == None && LittleEndian(t.pn) == 0 && t.sent == 0
      && t.attached == s.attached && t.powered == s.powered && t.installs == s.installs
      && AtMost(At(s), Position(s.installs + 1, 0))
  {
    hide LittleEndian;
    ClearKeeps(s);
  }

  /** A state at rest whose keys are gone. */
  lemma RestKeeps(s: Sta, t: Sta)
    requires t.scanReturn == Idle && !t.onHome && t.state in {Idle, Authenticating}
    requires t.pairwise == None && t.sent == 0 && LittleEndian(t.pn) == 0
    requires t.installs == s.installs && AtMost(At(s), Position(s.installs + 1, 0))
    ensures Kept(s, t)
  {
    hide LittleEndian;
  }

  lemma DisconnectedKeeps(s: Sta)
    requires Safe(s)
    ensures Kept(s, Disconnected(s)) && Disconnected(s).state == Idle
  {
    hide LittleEndian, ReleasePeer, ClearKeys;
    if s.attached {
      DropKeeps(s);
      RestKeeps(s, Disconnected(s));
    }
  }

  lemma ConnectKeeps(s: Sta, e: Event)
    requires Safe(s) && e.Connect?
    ensures Kept(s, Connecting(s, e))
  {
    hide LittleEndian, CString, AbortScan, ReleasePeer, ClearKeys, Safe, Aim, At;
    ScanKeeps(s, e.ended);
    var s1 := AbortScan(s, e.ended);
    if s1.state == Idle && e.ssidGiven {
      DropKeeps(s1);
      var s2 := ReleasePeer(ClearKeys(s1));
      RestKeeps(s1, s2);
      KeptOn(s, s1, s2);
      if e.found.Some? {
        AimKeeps(s2, e.found.value, e.password, e.thread);
        KeptOn(s, s2, Aim(s2, e.found.value, e.password, e.thread));
      }
    }
  }

  lemma AimKeeps(s: Sta, target: Bss, password: bytes, thread: bool)
    requires Safe(s)
    ensures Kept(s, Aim(s, target, password, thread))
  {
    hide LittleEndian, CString;
  }

  lemma PowerDownKeeps(s: Sta, ended: bool)
    requires Safe(s)
    ensures Kept(s, PowerDown(s, ended))
  {
    hide LittleEndian, AbortScan, Disconnected, ReleasePeer, ClearKeys;
    ScanKeeps(s, ended);
    var s1 := AbortScan(s, ended);
    if s1.state in {Connected, Authenticating, Associating, Handshaking} {
      DisconnectedKeeps(s1);
      KeptOn(s, s1, Disconnected(s1));
      OffKeeps(s, Disconnected(s1));
    } else {
      DropKeeps(s1);
      RestKeeps(s1, PowerDown(s, ended));
      KeptOn(s, s1, PowerDown(s, ended));
    }
  }

  lemma OffKeeps(s: Sta, t: Sta)
    requires Kept(s, t)
    ensures Kept(s, t.(powered := false, state := Idle, scanReturn := Idle, link := false))
  {
    hide LittleEndian;
  }

  lemma StoppedKeeps(s: Sta)
    requires Safe(s)
    ensures Kept(s, Stopped(s))
  {
    hide LittleEndian, Disconnected, ReleasePeer, ClearKeys;
    if (s.state == Connected || (s.state == Scanning && s.scanReturn == Connected)) && s.powered {
      DisconnectedKeeps(s);
    } else {
      DropKeeps(s);
      RestKeeps(s, Stopped(s));
    }
  }

  lemma AuthKeeps(s: Sta, addr3: Address, body: bytes)
    requires Safe(s)
    ensures Kept(s, OnAuth(s, addr3, body))
  {
    hide Number, Associate, Kept;
    KeptItself(s);
    AssociateKeeps(s);
  }

  lemma KeptItself(s: Sta)
    requires Safe(s)
    ensures Kept(s, s)
  {
  }

  lemma AssociateKeeps(s: Sta)
    requires Safe(s)
    ensures Kept(s, Associate(s)) && Kept(s, s.(state := Idle))
  {
    hide LittleEndian;
  }

  lemma AssocKeeps(s: Sta, addr3: Address, body: bytes, memory: bool)
    requires Safe(s)
    ensures Kept(s, OnAssoc(s, addr3, body, memory))
  {
    hide Number, Associated, Kept, Associate;
    KeptItself(s);
    AssociateKeeps(s);
    if s.state == Associating {
      AssociatedKeeps(s, memory);
    }
  }

  lemma AssociatedKeeps(s: Sta, memory: bool)
    requires Safe(s) && s.state == Associating
    ensures Kept(s, Associated(s, memory))
  {
    hide Pbkdf2, LittleEndian;
  }

  lemma DeauthKeeps(s: Sta, addr1: Address, addr2: Address, addr3: Address)
    requires Safe(s)
    ensures Kept(s, OnDeauth(s, addr1, addr2, addr3))
  {
    hide LittleEndian;
    ClearKeeps(s);
  }

  lemma TimerKeeps(s: Sta)
    requires Safe(s)
    ensures Kept(s, OnTimer(s))
  {
    hide LittleEndian, Disconnected, Resume;
    ResumeKeeps(s);
    DisconnectedKeeps(s);
  }

  /** The events that only set flags or the state. */
  lemma StartKeeps(s: Sta, probed: bool, present: bool, powered: bool)
    requires Safe(s)
    ensures Kept(s, Started(s, probed, present, powered))
  {
    hide At;
    SameKeysKeep(s, Started(s, probed, present, powered));
  }

  lemma PowerUpKeeps(s: Sta, accepted: bool)
    requires Safe(s)
    ensures Kept(s, PoweredUp(s, accepted))
  {
    hide At;
    SameKeysKeep(s, PoweredUp(s, accepted));
  }

  lemma StartScanKeeps(s: Sta, channels: nat, offload: bool, accepted: bool, thread: bool)
    requires Safe(s)
    ensures Kept(s, StartScan(s, channels, offload, accepted, thread))
  {
    hide At, Scanned, Kept;
    KeptItself(s);
    var t := s.(scanReturn := Idle, state := Scanning);
    SameKeysKeep(s, t);
    assert Safe(t) by { KeptSafe(s, t); }
    ScannedKeeps(t, channels, offload, accepted, thread);
    KeptOn(s, t, Scanned(t, channels, offload, accepted, thread));
  }

  lemma KeptSafe(s: Sta, t: Sta)
    requires Kept(s, t)
    ensures Safe(t)
  {
  }

  lemma ScannedKeeps(s: Sta, channels: nat, offload: bool, accepted: bool, thread: bool)
    requires Safe(s)
    ensures Kept(s, Scanned(s, channels, offload, accepted, thread))
  {
    hide At, Kept;
    KeptItself(s);
    SameKeysKeep(s, Rested(s));
    SameKeysKeep(s, s.(manual := channels, onHome := false));
  }

  lemma HopKeeps(s: Sta, home: bool)
    requires Safe(s)
    ensures Kept(s, Hop(s, home))
  {
    hide At;
    SameKeysKeep(s, Hop(s, home));
  }

  lemma EndManualKeeps(s: Sta)
    requires Safe(s)
    ensures Kept(s, EndManual(s))
  {
    hide At;
    SameKeysKeep(s, EndManual(s));
  }

  /** Whenever the connect thread runs, it leaves the connected state if it does anything. */
  lemma FireKeeps(s: Sta)
    requires Safe(s)
    ensures Kept(s, Fire(s))
  {
    hide At;
    SameKeysKeep(s, Fire(s));
  }

  /** An event that sends nothing: the invariant is kept. */
  lemma QuietKeeps(s: Sta, e: Event)
    requires Safe(s) && !e.EapolData? && !e.Output?
    ensures Step(s, e).sent == [] && Kept(s, Step(s, e).sta)
  {
    hide Safe, At, Connecting, PowerDown, Stopped, FinishScan, OnAuth, OnAssoc, OnDeauth, OnTimer, Disconnected,
      Started, PoweredUp, StartScan, Hop, EndManual, Fire;
    match e {
      case Connect(_, _, _, _, _) => ConnectKeeps(s, e);
      case PowerOff(ended) => PowerDownKeeps(s, ended);
      case Stop => StoppedKeeps(s);
      case ScanDone => ScanKeeps(s, false);
      case ManualScanEnds =>
        ScanKeeps(s, false);
        EndManualKeeps(FinishScan(s));
        KeptOn(s, FinishScan(s), EndManual(FinishScan(s)));
      case AuthResponse(addr3, body) => AuthKeeps(s, addr3, body);
      case AssocResponse(addr3, body, memory) => AssocKeeps(s, addr3, body, memory);
      case Deauth(addr1, addr2, addr3) => DeauthKeeps(s, addr1, addr2, addr3);
      case Timer => TimerKeeps(s);
      case Disconnect => DisconnectedKeeps(s);
      case Start(probed, present, powered) => StartKeeps(s, probed, present, powered);
      case PowerOn(accepted) => PowerUpKeeps(s, accepted);
      case Scan(channels, offload, accepted, thread) => StartScanKeeps(s, channels, offload, accepted, thread);
      case ManualHop(home) => HopKeeps(s, home);
      case ConnectFires => FireKeeps(s);
    }
  }

  /** Every event keeps the invariant; what it sends is proper and moves forward. */
  lemma StepKeeps(s: Sta, e: Event)
    requires Safe(s)
    ensures GoodOutcome(s, Step(s, e))
  {
    hide HandleEapol, TxData, GoodOutcome, At, Connecting, PowerDown, Stopped, FinishScan, OnAuth, OnAssoc, OnDeauth, OnTimer,
      Disconnected, LittleEndian;
    NothingSent(s, s);
    match e {
      case EapolData(data, snonce, luck) =>
        if s.state == Handshaking {
          EapolKeeps(s, data, snonce, luck);
        }
      case Output(da, etherType, payload, memory, copied) =>
        if MaySend(s) {
          TxKeeps(s, da, etherType, payload, memory, copied);
        }
      case _ =>
        QuietKeeps(s, e);
        assert Step(s, e) == Outcome(Step(s, e).sta, []);
        NothingSent(s, Step(s, e).sta);
    }
  }

  // Runs.

  function Run(s: Sta, es: seq<Event>): Outcome
    decreases |es|
  {
    hide Step;
    if |es| == 0 then Outcome(s, [])
    else
      var o := Step(s, es[0]);
      var rest := Run(o.sta, es[1..]);
      Outcome(rest.sta, o.sent + rest.sent)
  }

  /** Power-up: nothing configured, no key, no link. */
  predicate Initial(s: Sta) {
    && s.state == Idle && s.scanReturn == Idle && !s.onHome && s.pending == 0 && !s.link
    && s.pairwise.None? && s.group.None? && s.pn == NoPn() && s.sent == 0 && s.installs == 0
    && s.ptk == NoPtk() && !s.derived
  }

  lemma {:induction false} RunKeeps(s: Sta, es: seq<Event>)
    requires Safe(s)
    ensures Safe(Run(s, es).sta)
    decreases |es|
  {
    hide Step, Safe;
    if |es| > 0 {
      StepKeeps(s, es[0]);
      RunKeeps(Step(s, es[0]).sta, es[1..]);
    }
  }

  /** In every reachable state, whatever the events and however late the connect thread runs: no scan
      ever returns to a connected state, and a connected WPA2 link has an active link status and an
      installed pairwise key equal to the temporal key of the current PTK. */
  lemma ReachableSafe(s: Sta, es: seq<Event>)
    requires Initial(s)
    ensures var t := Run(s, es).sta;
      && t.scanReturn == Idle
      && (t.state == Connected ==> t.link && t.attached)
      && (t.state == Connected && t.wpa2 ==> t.pairwise == Some(KeyConf(Ccmp, 0, t.ptk[32..48])))
  {
    hide Run, LittleEndian;
    ZeroPn();
    RunKeeps(s, es);
  }

  /** From any reachable state of a WPA2 link, every data frame but EAPOL that an event sends is
      marked protected and carries the temporal key of the PTK the station then has. */
  lemma NeverInTheClear(s: Sta, es: seq<Event>, e: Event, x: Sent)
    requires Initial(s) && x in Step(Run(s, es).sta, e).sent
    ensures var t := Run(s, es).sta;
      t.wpa2 && x.content.etherType != PAE ==>
        x.content.key.Some? && x.key == TemporalKey(t) && IsProtected(Join(Encapsulate(x.content)[0], Encapsulate(x.content)[1]))
  {
    hide Run, LittleEndian, Step, Encapsulate, Header, FrameControl;
    ZeroPn();
    RunKeeps(s, es);
    StepKeeps(Run(s, es).sta, e);
    ProtectedBit(x.content);
  }

  lemma ProtectedBit(c: Content)
    ensures |Encapsulate(c)| >= 24
    ensures IsProtected(Join(Encapsulate(c)[0], Encapsulate(c)[1])) <==> c.key.Some?
  {
    hide Header, FrameControl, Join, IsProtected, LowByte, HighByte;
    HeaderParts(c);
    FrameControlRead(c.qos, c.key.Some?);
    assert Encapsulate(c)[0] == Header(c)[0] && Encapsulate(c)[1] == Header(c)[1];
  }

  /** The frames of a run that go out protected. */
  function Protected(xs: seq<Sent>): seq<Sent> {
    if |xs| == 0 then [] else (if xs[0].key.Some? then [xs[0]] else []) + Protected(xs[1..])
  }

  ghost predicate Forward(p: Position, xs: seq<Sent>, q: Position) {
    && AtMost(p, q)
    && (forall i :: 0 <= i < |xs| ==> Before(p, Of(xs[i])) && AtMost(Of(xs[i]), q))
    && (forall i, j :: 0 <= i < j < |xs| ==> Before(Of(xs[i]), Of(xs[j])))
    && (forall i :: 0 <= i < |xs| ==> LittleEndian(xs[i].content.pn) == xs[i].ordinal % PN_RANGE)
  }

  lemma ForwardOn(p: Position, xs: seq<Sent>, q: Position, ys: seq<Sent>, r: Position)
    requires Forward(p, xs, q) && Forward(q, ys, r)
    ensures Forward(p, xs + ys, r)
  {
    hide LittleEndian;
  }

  lemma {:induction false} ProtectedConcat(xs: seq<Sent>, ys: seq<Sent>)
    ensures Protected(xs + ys) == Protected(xs) + Protected(ys)
  {
    if |xs| == 0 {
      assert xs + ys == ys;
    } else {
      ProtectedConcat(xs[1..], ys);
      assert (xs + ys)[1..] == xs[1..] + ys && (xs + ys)[0] == xs[0];
    }
  }

  lemma StepForward(s: Sta, e: Event)
    requires Safe(s)
    ensures Forward(At(s), Protected(Step(s, e).sent), At(Step(s, e).sta))
  {
    hide Step, Safe, LittleEndian;
    StepKeeps(s, e);
    var xs := Step(s, e).sent;
    if |xs| == 1 {
      assert xs[1..] == [];
      assert Protected(xs) == if xs[0].key.Some? then [xs[0]] else [];
      assert xs[0] in xs;
    }
  }

  /** Packet numbers over every run: the protected frames are strictly ordered by installation and by
      number within it, and the 48-bit packet number is that number modulo 2 to the 48th. */
  lemma {:induction false} PacketNumbers(s: Sta, es: seq<Event>)
    requires Safe(s)
    ensures Forward(At(s), Protected(Run(s, es).sent), At(Run(s, es).sta))
    decreases |es|
  {
    hide Step, Safe, LittleEndian, Forward, Protected, At;
    if |es| == 0 {
      NothingForward(s);
    } else {
      var o := Step(s, es[0]);
      StepKeeps(s, es[0]);
      StepForward(s, es[0]);
      PacketNumbers(o.sta, es[1..]);
      var rest := Run(o.sta, es[1..]);
      ProtectedConcat(o.sent, rest.sent);
      ForwardOn(At(s), Protected(o.sent), At(o.sta), Protected(rest.sent), At(rest.sta));
    }
  }

  lemma NothingForward(s: Sta)
    ensures Protected([]) == [] && Forward(At(s), [], At(s))
  {
  }

  /** Two protected frames of one run under the same installation carry the same packet number if and
      only if a whole multiple of 2 to the 48th frames lies between them. */
  lemma PacketNumberReuse(s: Sta, es: seq<Event>, i: nat, j: nat)
    requires Safe(s) && i < j < |Protected(Run(s, es).sent)|
    requires Protected(Run(s, es).sent)[i].epoch == Protected(Run(s, es).sent)[j].epoch
    ensures var x, y := Protected(Run(s, es).sent)[i], Protected(Run(s, es).sent)[j];
      x.ordinal < y.ordinal && (x.content.pn == y.content.pn <==> (y.ordinal - x.ordinal) % PN_RANGE == 0)
  {
    hide Run, Protected, LittleEndian, Safe, At;
    PacketNumbers(s, es);
    var x, y := Protected(Run(s, es).sent)[i], Protected(Run(s, es).sent)[j];
    Injective(x.content.pn, y.content.pn);
    SameResidue(x.ordinal, y.ordinal);
  }

  lemma SameResidue(m: nat, n: nat)
    requires m < n
    ensures m % PN_RANGE == n % PN_RANGE <==> (n - m) % PN_RANGE == 0
  {
  }

  lemma {:induction false} Injective(a: bytes, b: bytes)
    requires |a| == |b|
    ensures a == b <==> LittleEndian(a) == LittleEndian(b)
  {
    hide Val;
    if |a| > 0 {
      ByteVal(a[0]);
      ByteVal(b[0]);
      Injective(a[1..], b[1..]);
      assert a == [a[0]] + a[1..] && b == [b[0]] + b[1..];
    }
  }
}
