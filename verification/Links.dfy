/** Which states follow which, and what becomes of the peer record. */
module Links {
  import opened Bytes
  import opened Options
  import opened DataFrame
  import opened KeyDerivation
  import opened Eapol
  import opened StationSpec
  import opened StationSafety
  import Handshake
  import Kde

  /** On the way to a handshake, or in it. */
  predicate Approaching(s: Sta) {
    s.state in {Authenticating, Associating, Handshaking}
  }

  /** The access point has taken the station in. */
  predicate Joined(s: Sta) {
    s.state in {Handshaking, Connected}
  }

  /** A change that starts no approach and joins nothing; a peer record can go, but not while joined. */
  predicate Onward(s: Sta, t: Sta) {
    && (Approaching(t) ==> Approaching(s)) && (Joined(t) ==> Joined(s) && t.peer == s.peer)
    && (t.peer ==> s.peer)
  }

  lemma OnwardOn(s: Sta, t: Sta, u: Sta)
    requires Onward(s, t) && Onward(t, u)
    ensures Onward(s, u)
  {
  }

  lemma SameOnward(s: Sta, t: Sta)
    requires t.state in {s.state, Idle, Scanning} && t.peer == s.peer
    ensures Onward(s, t)
  {
  }

  lemma RestOnward(s: Sta, t: Sta)
    requires t.state in {Idle, Scanning} && (t.peer ==> s.peer)
    ensures Onward(s, t)
  {
  }

  lemma ScanOnward(s: Sta, ended: bool)
    requires Safe(s)
    ensures FinishScan(s).peer == s.peer && FinishScan(s).state in {s.state, Idle}
    ensures AbortScan(s, ended).peer == s.peer && AbortScan(s, ended).state in {s.state, Idle}
  {
    hide LittleEndian, Resume;
    ResumeKeeps(s);
  }

  lemma DropOnward(s: Sta)
    ensures !ReleasePeer(ClearKeys(s)).peer && ReleasePeer(ClearKeys(s)).state == s.state
  {
    hide NoPn, NoPtk;
  }

  lemma DisconnectedOnward(s: Sta)
    ensures Disconnected(s).state == Idle && (Disconnected(s).peer ==> s.peer)
  {
    hide ReleasePeer, ClearKeys;
    DropOnward(s);
  }

  lemma LeaveOnward(s: Sta, joined: bool)
    ensures Leave(s, joined).peer ==> s.peer
  {
    hide ReleasePeer, ClearKeys, Disconnected;
    DropOnward(s);
    DisconnectedOnward(s);
  }

  lemma OffOnward(s: Sta, ended: bool)
    requires Safe(s)
    ensures Onward(s, PowerDown(s, ended)) && Onward(s, Stopped(s))
  {
    hide LittleEndian, AbortScan, Leave, Onward;
    ScanOnward(s, ended);
    var s1 := AbortScan(s, ended);
    LeaveOnward(s1, s1.state in {Connected, Authenticating, Associating, Handshaking});
    RestOnward(s, PowerDown(s, ended));
    LeaveOnward(s, (s.state == Connected || (s.state == Scanning && s.scanReturn == Connected)) && s.powered);
    RestOnward(s, Stopped(s));
  }

  lemma TimerOnward(s: Sta)
    requires Safe(s)
    ensures Onward(s, OnTimer(s))
  {
    hide LittleEndian, Disconnected, Resume;
    ResumeKeeps(s);
    DisconnectedOnward(s);
  }

  lemma AuthOnward(s: Sta, addr3: Address, body: bytes)
    ensures Onward(s, OnAuth(s, addr3, body))
  {
    hide Number;
  }

  lemma DeauthOnward(s: Sta, addr1: Address, addr2: Address, addr3: Address)
    ensures Onward(s, OnDeauth(s, addr1, addr2, addr3))
  {
    hide EndsConnection, NoPn, NoPtk;
  }

  lemma StartOnward(s: Sta, probed: bool, present: bool, powered: bool)
    ensures Onward(s, Started(s, probed, present, powered))
  {
  }

  lemma PowerOnward(s: Sta, accepted: bool)
    ensures Onward(s, PoweredUp(s, accepted))
  {
  }

  lemma StartScanOnward(s: Sta, channels: nat, offload: bool, accepted: bool, thread: bool)
    ensures Onward(s, StartScan(s, channels, offload, accepted, thread))
  {
    hide Scanned, Onward;
    SameOnward(s, s);
    var t := s.(scanReturn := Idle, state := Scanning);
    ScannedOnward(t, channels, offload, accepted, thread);
    RestOnward(s, Scanned(t, channels, offload, accepted, thread));
  }

  lemma ScannedOnward(s: Sta, channels: nat, offload: bool, accepted: bool, thread: bool)
    requires s.state == Scanning
    ensures var t := Scanned(s, channels, offload, accepted, thread); t.state in {Scanning, Idle} && t.peer == s.peer
  {
  }

  lemma FlagsOnward(s: Sta, home: bool)
    ensures Onward(s, Hop(s, home)) && Onward(s, EndManual(s))
  {
  }

  lemma TxOnward(s: Sta, da: Address, etherType: bytes, payload: bytes, memory: bool, copied: bool)
    requires |etherType| == 2
    ensures Onward(s, TxData(s, da, etherType, payload, memory, copied).sta)
  {
    hide Counted, NextSeqCtrl;
    CountedKeeps(s, Protects(s, etherType));
  }

  // The handshake.

  lemma ReplyOnward(s: Sta, step: nat, luck: Luck)
    ensures SendReply(s, step, luck).sta.peer == s.peer && SendReply(s, step, luck).sta.state == s.state
  {
    hide SendReply;
    Handshake.ReplyFrame(s, step, luck);
  }

  lemma CompleteOnward(s: Sta, gtk: Option<Kde.Gtk>, luck: Luck)
    ensures Complete(s, gtk, luck).sta.peer == s.peer && Complete(s, gtk, luck).sta.state in {s.state, Connected}
  {
    hide InstallGroup, SendReply;
    ReplyOnward(s, 4, luck);
    if gtk.Some? && |gtk.value.key| != 0 {
      GroupKeeps(s, gtk.value.index, GroupCipher(s), gtk.value.key, luck.groupMemory, luck.groupSet);
      ReplyOnward(InstallGroup(s, gtk.value.index, GroupCipher(s), gtk.value.key, luck.groupMemory, luck.groupSet).0, 4, luck);
    }
  }

  lemma InstallOnward(s: Sta, gtk: Option<Kde.Gtk>, luck: Luck)
    ensures Install(s, gtk, luck).sta.peer == s.peer && Install(s, gtk, luck).sta.state in {s.state, Connected}
  {
    hide InstallPairwise, Complete;
    OnlyPairwise(s, 0, Ccmp, s.ptk[32..48], luck.pairwiseMemory, luck.pairwiseSet);
    CompleteOnward(InstallPairwise(s, 0, Ccmp, s.ptk[32..48], luck.pairwiseMemory, luck.pairwiseSet).0, gtk, luck);
  }

  lemma Message1Onward(s: Sta, data: bytes, snonce: Nonce, luck: Luck)
    requires |data| >= 99
    ensures Message1(s, data, snonce, luck).sta.peer == s.peer && Message1(s, data, snonce, luck).sta.state == s.state
  {
    hide PtkOf, SendReply;
    var anonce: Nonce := data[17..49];
    ReplyOnward(s.(anonce := anonce, snonce := snonce, ptk := PtkOf(s.pmk, anonce, snonce, s.mac, s.target.bssid),
                   counter := data[9..17], derived := true), 2, luck);
  }

  lemma Message3Onward(s: Sta, data: bytes, eapolLen: nat, luck: Luck)
    requires 99 <= eapolLen <= |data|
    ensures Message3(s, data, eapolLen, luck).sta.peer == s.peer && Message3(s, data, eapolLen, luck).sta.state in {s.state, Connected}
  {
    hide Number, Install, MicOk, ClearKeyData, Kde.GtkOf;
    var n := Number(data[97], data[98]);
    if 99 + n <= eapolLen {
      var clear := ClearKeyData(s.ptk[16..32], Info(data), data[99..99 + n]);
      if clear.Some? {
        InstallOnward(s.(counter := data[9..17]), Kde.GtkOf(clear.value), luck);
      }
    }
  }

  lemma EapolOnward(s: Sta, data: bytes, snonce: Nonce, luck: Luck)
    requires s.state == Handshaking
    ensures Onward(s, HandleEapol(s, data, snonce, luck).sta)
  {
    hide Number, Message1, Message3, Info;
    if |data| >= 99 && data[1] == 3 {
      var eapolLen := 4 + Number(data[2], data[3]);
      Message1Onward(s, data, snonce, luck);
      if 99 <= eapolLen <= |data| {
        Message3Onward(s, data, eapolLen, luck);
      }
    }
  }

  // Every event.

  /** All but three events start no approach and join nothing. */
  lemma StepOnward(s: Sta, e: Event)
    requires Safe(s) && !e.Connect? && !e.AssocResponse? && !e.ConnectFires?
    ensures Onward(s, Step(s, e).sta)
  {
    hide LittleEndian, Onward, PowerDown, Stopped, FinishScan, OnAuth, OnDeauth, OnTimer, Disconnected, Started, PoweredUp, StartScan,
      Hop, EndManual, HandleEapol, TxData;
    SameOnward(s, s);
    match e {
      case Start(probed, present, powered) => StartOnward(s, probed, present, powered);
      case PowerOn(accepted) => PowerOnward(s, accepted);
      case PowerOff(ended) => OffOnward(s, ended);
      case Stop => OffOnward(s, false);
      case Scan(channels, offload, accepted, thread) => StartScanOnward(s, channels, offload, accepted, thread);
      case ScanDone =>
        ScanOnward(s, false);
        SameOnward(s, FinishScan(s));
      case ManualScanEnds =>
        ScanOnward(s, false);
        SameOnward(s, FinishScan(s));
        FlagsOnward(FinishScan(s), false);
        OnwardOn(s, FinishScan(s), EndManual(FinishScan(s)));
      case ManualHop(home) => FlagsOnward(s, home);
      case AuthResponse(addr3, body) => AuthOnward(s, addr3, body);
      case Deauth(addr1, addr2, addr3) => DeauthOnward(s, addr1, addr2, addr3);
      case Timer => TimerOnward(s);
      case Disconnect =>
        DisconnectedOnward(s);
        RestOnward(s, Disconnected(s));
      case EapolData(data, snonce, luck) =>
        if s.state == Handshaking {
          EapolOnward(s, data, snonce, luck);
        }
      case Output(da, etherType, payload, memory, copied) =>
        TxOnward(s, da, etherType, payload, memory, copied);
    }
  }

  /** Connecting joins nothing; if it gets as far as the target, there is no peer record. */
  lemma ConnectOnward(s: Sta, e: Event)
    requires Safe(s) && e.Connect?
    ensures var t := Connecting(s, e);
      && (t.peer ==> s.peer) && (Joined(t) ==> Joined(s) && t.peer == s.peer) && (Approaching(t) && !Approaching(s) ==> !t.peer)
  {
    hide LittleEndian, AbortScan, ReleasePeer, ClearKeys, CString;
    ScanOnward(s, e.ended);
    DropOnward(AbortScan(s, e.ended));
  }

  /** The thread starts an approach with the peer record there is. */
  lemma FireOnward(s: Sta)
    ensures var t := Fire(s); t.peer == s.peer && if s.pending > 0 && s.attached then t.state == Authenticating else Onward(s, t)
  {
  }

  /** Joining is by association, which makes a peer record if it can. */
  lemma AssocOnward(s: Sta, addr3: Address, body: bytes, memory: bool)
    ensures var t := OnAssoc(s, addr3, body, memory);
      && (Approaching(t) ==> Approaching(s)) && (s.peer ==> t.peer)
      && (if s.state == Associating then Joined(t) ==> t.peer == (s.peer || memory) else t == s)
  {
    hide Number, Associated;
    AssociatedOnward(s, memory);
  }

  lemma AssociatedOnward(s: Sta, memory: bool)
    ensures Joined(Associated(s, memory)) && Associated(s, memory).peer == (s.peer || memory)
    ensures Approaching(Associated(s, memory)) ==> Associated(s, memory).state == Handshaking
  {
    hide Pbkdf2;
  }
}
