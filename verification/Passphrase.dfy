/** The passphrase behind the handshake: which pairwise master key the station uses in every reachable state. */
module Passphrase {
  import opened Bytes
  import opened Options
  import opened DataFrame
  import opened KeyDerivation
  import opened Eapol
  import opened StationSpec
  import opened StationSafety
  import opened Links
  import opened Management
  import Handshake
  import Kde

  /** The key that passphrase and network name give, section J.4 of IEEE Std 802.11-2016. */
  function MasterKey(s: Sta): bytes {
    hide Pbkdf2;
    Pbkdf2(s.password, Cut(s.target.ssid, 120), 4096)
  }

  predicate InUse(s: Sta) {
    s.state == Handshaking || (s.state == Connected && s.wpa2)
  }

  /** The pairwise key that passphrase, network and the two nonces of the handshake give. */
  function PassphrasePtk(s: Sta): Ptk {
    hide PtkOf, MasterKey;
    PtkOf(MasterKey(s), s.anonce, s.snonce, s.mac, s.target.bssid)
  }

  /** While keys are being made or used, they are made from the passphrase given for the network aimed at; and the
      pairwise key is the one so made exactly if a message 1 was handled since keys were last cleared, else zeros. */
  ghost predicate Keyed(s: Sta) {
    hide PassphrasePtk, MasterKey, NoPtk;
    && (InUse(s) ==> s.wpa2 && s.pmk == MasterKey(s))
    && (if s.derived then s.wpa2 && s.ptk == PassphrasePtk(s) else s.ptk == NoPtk())
  }

  predicate SameKeys(s: Sta, t: Sta) {
    t.ptk == s.ptk && t.derived == s.derived && t.anonce == s.anonce && t.snonce == s.snonce && t.pairwise == s.pairwise
  }

  predicate Cleared(t: Sta) {
    t.ptk == NoPtk() && !t.derived && t.pairwise.None?
  }

  /** Network, passphrase and master key stay, and no run of the connect thread is added. */
  predicate SameNetwork(s: Sta, t: Sta) {
    && t.pmk == s.pmk && t.password == s.password && t.target == s.target && t.wpa2 == s.wpa2 && t.mac == s.mac
    && t.pending <= s.pending
  }

  /** A change that leaves network, passphrase and master key alone, keeps all keys or clears all, installs
      nothing, and neither enters a handshake nor starts towards one with the old keys. */
  ghost predicate Follows(s: Sta, t: Sta) {
    hide NoPtk;
    && SameNetwork(s, t) && t.installs == s.installs && (SameKeys(s, t) || Cleared(t))
    && (InUse(t) ==> InUse(s)) && (Approaching(t) ==> Approaching(s) || Cleared(t))
  }

  lemma KeyedOn(s: Sta, t: Sta)
    requires Keyed(s) && Follows(s, t)
    ensures Keyed(t)
  {
    hide Pbkdf2, PtkOf, NoPtk;
  }

  lemma FollowsOn(s: Sta, t: Sta, u: Sta)
    requires Follows(s, t) && Follows(t, u)
    ensures Follows(s, u)
  {
    hide NoPtk;
  }

  lemma FollowsItself(s: Sta)
    ensures Follows(s, s)
  {
  }

  // Frames of the handshake.

  /** Message 1: a new pairwise key from the master key in hand, and nothing installed. */
  ghost predicate Rekeyed(s: Sta, t: Sta) {
    hide PtkOf;
    && SameNetwork(s, t) && t.state == s.state && t.pairwise == s.pairwise && t.installs == s.installs
    && t.derived && t.ptk == PtkOf(s.pmk, t.anonce, t.snonce, s.mac, s.target.bssid)
  }

  /** Any other frame: the pairwise key stays as derived; it may be installed, and an old one may go. */
  ghost predicate Installed(s: Sta, t: Sta) {
    && SameNetwork(s, t) && t.state in {s.state, Connected}
    && t.ptk == s.ptk && t.derived == s.derived && t.anonce == s.anonce && t.snonce == s.snonce
    && ((t.installs == s.installs && t.state == s.state && (t.pairwise == s.pairwise || t.pairwise.None?))
        || (t.installs == s.installs + 1 && t.pairwise == TemporalKey(s)))
  }

  predicate IsMessage1Data(data: bytes) {
    hide Number, Info;
    && |data| >= 99 && data[1] == 3 && 99 <= 4 + Number(data[2], data[3]) <= |data|
    && Info(data) & 0x0088 == 0x0088 && Info(data) & 0x0100 == 0
  }

  lemma Message1Rekeys(s: Sta, data: bytes, snonce: Nonce, luck: Luck)
    requires |data| >= 99
    ensures Rekeyed(s, Message1(s, data, snonce, luck).sta)
  {
    hide PtkOf, SendReply;
    var anonce: Nonce := data[17..49];
    var t := s.(anonce := anonce, snonce := snonce, ptk := PtkOf(s.pmk, anonce, snonce, s.mac, s.target.bssid), counter := data[9..17],
                derived := true);
    Handshake.ReplyFrame(t, 2, luck);
  }

  /** What the end of the handshake leaves alone. */
  ghost predicate Finishing(s: Sta, t: Sta) {
    SameNetwork(s, t) && SameKeys(s, t) && t.installs == s.installs && t.state in {s.state, Connected}
  }

  lemma FinishingOn(s: Sta, t: Sta, u: Sta)
    requires Finishing(s, t) && Finishing(t, u)
    ensures Finishing(s, u)
  {
  }

  lemma LastReplyFinishes(s: Sta, luck: Luck)
    ensures Finishing(s, LastReply(s, luck).sta)
  {
    hide SendReply;
    Handshake.ReplyFrame(s, 4, luck);
  }

  lemma GroupFinishes(s: Sta, u: Sta)
    requires u == s.(group := u.group)
    ensures Finishing(s, u)
  {
  }

  lemma CompleteFinishes(s: Sta, gtk: Option<Kde.Gtk>, luck: Luck)
    ensures Finishing(s, Complete(s, gtk, luck).sta)
  {
    hide InstallGroup, LastReply, Finishing;
    LastReplyFinishes(s, luck);
    if gtk.Some? && |gtk.value.key| != 0 {
      var (u, ok) := InstallGroup(s, gtk.value.index, GroupCipher(s), gtk.value.key, luck.groupMemory, luck.groupSet);
      GroupKeeps(s, gtk.value.index, GroupCipher(s), gtk.value.key, luck.groupMemory, luck.groupSet);
      GroupFinishes(s, u);
      LastReplyFinishes(u, luck);
      FinishingOn(s, u, LastReply(u, luck).sta);
    }
  }

  lemma PairwiseInstalls(s: Sta, t: Sta, u: Sta)
    requires t == s.(pairwise := TemporalKey(s), installs := s.installs + 1, sent := t.sent, pn := t.pn) && Finishing(t, u)
    ensures Installed(s, u)
  {
  }

  lemma RefusedInstalls(s: Sta)
    ensures Installed(s, s.(pairwise := None))
  {
  }

  lemma InstallInstalls(s: Sta, gtk: Option<Kde.Gtk>, luck: Luck)
    requires s.state == Handshaking && s.attached
    ensures Installed(s, Install(s, gtk, luck).sta)
  {
    hide InstallPairwise, Complete, Installed, Finishing;
    var (t, ok) := InstallPairwise(s, 0, Ccmp, s.ptk[32..48], luck.pairwiseMemory, luck.pairwiseSet);
    Handshake.PairwiseTaken(s, luck);
    PairwiseCounted(s, luck);
    if ok {
      CompleteFinishes(t, gtk, luck);
      PairwiseInstalls(s, t, Complete(t, gtk, luck).sta);
    } else {
      RefusedInstalls(s);
    }
  }

  lemma PairwiseCounted(s: Sta, luck: Luck)
    ensures var (t, ok) := InstallPairwise(s, 0, Ccmp, s.ptk[32..48], luck.pairwiseMemory, luck.pairwiseSet);
      ok ==> t.installs == s.installs + 1 && t.sent == 0
  {
    hide NoPn;
  }

  lemma Message3Installs(s: Sta, data: bytes, eapolLen: nat, luck: Luck)
    requires s.state == Handshaking && s.attached && 99 <= eapolLen <= |data|
    ensures Installed(s, Message3(s, data, eapolLen, luck).sta)
  {
    hide Number, Install, MicOk, ClearKeyData, Kde.GtkOf;
    var n := Number(data[97], data[98]);
    if 99 + n <= eapolLen && ClearKeyData(s.ptk[16..32], Info(data), data[99..99 + n]).Some? {
      var clear := ClearKeyData(s.ptk[16..32], Info(data), data[99..99 + n]).value;
      InstallInstalls(s.(counter := data[9..17]), Kde.GtkOf(clear), luck);
    }
  }

  /** A frame of the handshake either is a message 1 and derives a key, or derives none. */
  lemma EapolKeys(s: Sta, data: bytes, snonce: Nonce, luck: Luck)
    requires s.state == Handshaking && s.attached
    ensures var t := HandleEapol(s, data, snonce, luck).sta;
      if IsMessage1Data(data) then Rekeyed(s, t) && t.snonce == snonce && t.anonce == data[17..49] else Installed(s, t)
  {
    hide Number, Message1, Message3, Info, Rekeyed, Installed;
    InstalledItself(s);
    if |data| >= 99 && data[1] == 3 {
      var eapolLen := 4 + Number(data[2], data[3]);
      Message1Rekeys(s, data, snonce, luck);
      Message1Nonces(s, data, snonce, luck);
      if 99 <= eapolLen <= |data| {
        Message3Installs(s, data, eapolLen, luck);
      }
    }
  }

  lemma Message1Nonces(s: Sta, data: bytes, snonce: Nonce, luck: Luck)
    requires |data| >= 99
    ensures var t := Message1(s, data, snonce, luck).sta; t.snonce == snonce && t.anonce == data[17..49]
  {
    hide PtkOf, SendReply;
    var anonce: Nonce := data[17..49];
    var t := s.(anonce := anonce, snonce := snonce, ptk := PtkOf(s.pmk, anonce, snonce, s.mac, s.target.bssid), counter := data[9..17],
                derived := true);
    Handshake.ReplyFrame(t, 2, luck);
  }

  lemma InstalledItself(s: Sta)
    ensures Installed(s, s)
  {
  }

  lemma RekeyedKeyed(s: Sta, t: Sta)
    requires Keyed(s) && s.state == Handshaking && Rekeyed(s, t)
    ensures Keyed(t)
  {
    hide Pbkdf2, PtkOf;
  }

  lemma InstalledKeyed(s: Sta, t: Sta)
    requires Keyed(s) && s.state == Handshaking && Installed(s, t)
    ensures Keyed(t)
  {
    hide Pbkdf2, PtkOf, NoPtk;
  }

  /** Sending changes counters only. */
  lemma TxFollows(s: Sta, da: Address, etherType: bytes, payload: bytes, memory: bool, copied: bool)
    requires |etherType| == 2
    ensures Follows(s, TxData(s, da, etherType, payload, memory, copied).sta)
  {
    hide Counted, NextSeqCtrl;
    CountedKeeps(s, Protects(s, etherType));
  }

  // The other events.

  lemma ClearFollows(s: Sta)
    ensures Follows(s, ReleasePeer(ClearKeys(s))) && Cleared(ReleasePeer(ClearKeys(s)))
  {
    hide NoPn, NoPtk;
  }

  lemma DropFollows(s: Sta)
    ensures Follows(s, Disconnected(s)) && !InUse(Disconnected(s))
    ensures Follows(s, ReleasePeer(ClearKeys(s))) && Cleared(ReleasePeer(ClearKeys(s)))
  {
    hide ReleasePeer, ClearKeys, NoPtk;
    ClearFollows(s);
  }

  lemma ScanFollows(s: Sta, ended: bool)
    requires Safe(s)
    ensures Follows(s, FinishScan(s)) && Follows(s, AbortScan(s, ended))
  {
    hide LittleEndian, Resume, Follows;
    ResumeKeeps(s);
    FollowsItself(s);
    IdleFollows(s);
  }

  lemma IdleFollows(s: Sta)
    ensures Follows(s, s.(state := Idle)) && Follows(s, s.(state := Idle, onHome := false))
    ensures Follows(s, s.(state := Idle, manual := 0, onHome := false))
  {
  }

  lemma LeaveFollows(s: Sta, joined: bool)
    ensures Follows(s, Leave(s, joined))
  {
    hide ReleasePeer, ClearKeys, Disconnected, Follows;
    DropFollows(s);
  }

  lemma RestFollows(s: Sta, attached: bool, powered: bool, link: bool)
    ensures Follows(s, s.(attached := attached, powered := powered, state := Idle, scanReturn := Idle, link := link))
  {
  }

  lemma OffFollows(s: Sta, ended: bool)
    requires Safe(s)
    ensures Follows(s, PowerDown(s, ended)) && Follows(s, Stopped(s))
  {
    hide LittleEndian, AbortScan, Leave, Follows;
    ScanFollows(s, ended);
    var s1 := AbortScan(s, ended);
    var s2 := Leave(s1, s1.state in {Connected, Authenticating, Associating, Handshaking});
    LeaveFollows(s1, s1.state in {Connected, Authenticating, Associating, Handshaking});
    FollowsOn(s, s1, s2);
    RestFollows(s2, s2.attached, false, false);
    FollowsOn(s, s2, PowerDown(s, ended));
    var joined := (s.state == Connected || (s.state == Scanning && s.scanReturn == Connected)) && s.powered;
    var t := Leave(s, joined);
    LeaveFollows(s, joined);
    RestFollows(t, false, if s.attached then false else t.powered, t.link);
    FollowsOn(s, t, Stopped(s));
  }

  /** Connecting follows, or aims at a new network with all keys cleared. */
  ghost predicate Aimed(s: Sta, t: Sta) {
    t.installs == s.installs && Cleared(t) && !InUse(t)
  }

  lemma ConnectAims(s: Sta, e: Event)
    requires Safe(s) && e.Connect?
    ensures Follows(s, Connecting(s, e)) || Aimed(s, Connecting(s, e))
  {
    hide LittleEndian, AbortScan, ReleasePeer, ClearKeys, CString, NoPtk, Follows;
    ScanFollows(s, e.ended);
    var s1 := AbortScan(s, e.ended);
    DropFollows(s1);
    FollowsOn(s, s1, ReleasePeer(ClearKeys(s1)));
    FollowsInstalls(s, ReleasePeer(ClearKeys(s1)));
  }

  lemma FollowsInstalls(s: Sta, t: Sta)
    requires Follows(s, t)
    ensures t.installs == s.installs
  {
  }

  lemma AimedKeyed(s: Sta, t: Sta)
    requires Aimed(s, t)
    ensures Keyed(t)
  {
    hide NoPtk, MasterKey, PtkOf;
  }

  /** Association: the keys stay; entering the handshake is where the master key is made. */
  ghost predicate TakenIn(s: Sta, t: Sta) {
    hide Pbkdf2;
    && SameKeys(s, t) && t.installs == s.installs && t.password == s.password && t.target == s.target && t.wpa2 == s.wpa2 && t.mac == s.mac
    && t.pending <= s.pending && s.state == Associating && (InUse(t) ==> t.wpa2 && t.pmk == MasterKey(t))
  }

  lemma AssocJoins(s: Sta, addr3: Address, body: bytes, memory: bool)
    ensures Follows(s, OnAssoc(s, addr3, body, memory)) || TakenIn(s, OnAssoc(s, addr3, body, memory))
  {
    hide Number, Associated, Follows, TakenIn;
    FollowsItself(s);
    AssociateFollows(s);
    if s.state == Associating {
      AssociatedJoins(s, memory);
    }
  }

  lemma AssociatedJoins(s: Sta, memory: bool)
    requires s.state == Associating
    ensures TakenIn(s, Associated(s, memory))
  {
    hide Pbkdf2;
  }

  lemma JoinedKeyed(s: Sta, t: Sta)
    requires Keyed(s) && TakenIn(s, t)
    ensures Keyed(t)
  {
    hide Pbkdf2, PtkOf, NoPtk;
  }

  lemma TimerFollows(s: Sta)
    requires Safe(s)
    ensures Follows(s, OnTimer(s))
  {
    hide LittleEndian, Disconnected, Resume, Authenticate, Follows;
    ResumeKeeps(s);
    FollowsItself(s);
    IdleFollows(s);
    DropFollows(s);
    if s.state == Authenticating {
      AuthenticateFollows(s);
    }
  }

  lemma AuthenticateFollows(s: Sta)
    requires s.state == Authenticating
    ensures Follows(s, Authenticate(s))
  {
  }

  lemma DeauthFollows(s: Sta, addr1: Address, addr2: Address, addr3: Address)
    ensures Follows(s, OnDeauth(s, addr1, addr2, addr3))
  {
    hide EndsConnection, NoPn, NoPtk;
  }

  lemma AuthFollows(s: Sta, addr3: Address, body: bytes)
    ensures Follows(s, OnAuth(s, addr3, body))
  {
    hide Number, Associate, Follows;
    FollowsItself(s);
    AssociateFollows(s);
  }

  lemma AssociateFollows(s: Sta)
    ensures Approaching(s) ==> Follows(s, Associate(s))
    ensures Follows(s, s.(state := Idle))
  {
  }

  lemma StartFollows(s: Sta, probed: bool, present: bool, powered: bool)
    ensures Follows(s, Started(s, probed, present, powered))
  {
    hide Follows;
    FollowsItself(s);
    AttachedFollows(s, present, s.powered || powered);
  }

  lemma AttachedFollows(s: Sta, attached: bool, powered: bool)
    ensures Follows(s, s.(attached := attached, powered := powered, state := Idle, scanReturn := Idle))
  {
  }

  lemma PowerFollows(s: Sta, accepted: bool)
    ensures Follows(s, PoweredUp(s, accepted))
  {
    hide Follows, Settled;
    FollowsItself(s);
    PoweredFollows(s);
    SettledFollows(s.(powered := true));
    FollowsOn(s, s.(powered := true), Settled(s.(powered := true)));
  }

  lemma PoweredFollows(s: Sta)
    ensures Follows(s, s.(powered := true))
  {
  }

  lemma SettledFollows(s: Sta)
    ensures Follows(s, Settled(s))
  {
    hide Follows;
    FollowsItself(s);
    IdleFollows(s);
  }

  lemma HopFollows(s: Sta, home: bool)
    ensures Follows(s, Hop(s, home))
  {
  }

  lemma EndManualFollows(s: Sta)
    ensures Follows(s, EndManual(s))
  {
  }

  /** The connect thread starts towards a handshake with whatever keys there are. */
  ghost predicate Fired(s: Sta, t: Sta) {
    SameNetwork(s, t) && SameKeys(s, t) && t.installs == s.installs && t.state == Authenticating && s.pending > 0
  }

  lemma FireFires(s: Sta)
    ensures Fired(s, Fire(s)) || Follows(s, Fire(s))
  {
  }

  lemma FiredKeyed(s: Sta, t: Sta)
    requires Keyed(s) && Fired(s, t)
    ensures Keyed(t)
  {
    hide Pbkdf2, PtkOf, NoPtk;
  }

  lemma ScanningFollows(s: Sta)
    ensures Follows(s, s.(scanReturn := Idle, state := Scanning))
  {
  }

  lemma ScannedFollows(s: Sta, channels: nat, offload: bool, accepted: bool, thread: bool)
    ensures Follows(s, Scanned(s, channels, offload, accepted, thread))
  {
    hide Follows;
    FollowsItself(s);
    RestFollows(s, s.attached, s.powered, s.link);
    ManualFollows(s, channels);
  }

  lemma ManualFollows(s: Sta, channels: nat)
    ensures Follows(s, s.(manual := channels, onHome := false))
  {
  }

  lemma StartScanFollows(s: Sta, channels: nat, offload: bool, accepted: bool, thread: bool)
    ensures Follows(s, StartScan(s, channels, offload, accepted, thread))
  {
    hide Follows, Scanned;
    FollowsItself(s);
    var t := s.(scanReturn := Idle, state := Scanning);
    ScanningFollows(s);
    ScannedFollows(t, channels, offload, accepted, thread);
    FollowsOn(s, t, Scanned(t, channels, offload, accepted, thread));
  }

  /** The ways an event can treat the keys. */
  lemma StepKeys(s: Sta, e: Event)
    requires Safe(s)
    ensures var t := Step(s, e).sta;
      if e.EapolData? && s.state == Handshaking then
        (if IsMessage1Data(e.data) then Rekeyed(s, t) && t.snonce == e.snonce && t.anonce == e.data[17..49] else Installed(s, t))
      else if e.Connect? then Follows(s, t) || Aimed(s, t)
      else if e.AssocResponse? then Follows(s, t) || TakenIn(s, t)
      else if e.ConnectFires? then Follows(s, t) || Fired(s, t)
      else Follows(s, t)
  {
    hide LittleEndian, Follows, Aimed, TakenIn, Fired, Rekeyed, Installed, Connecting, PowerDown, Stopped, FinishScan, OnAuth, OnAssoc,
      OnDeauth, OnTimer, Disconnected, Started, PoweredUp, StartScan, Hop, EndManual, Fire, HandleEapol, TxData, IsMessage1Data;
    FollowsItself(s);
    match e {
      case Connect(_, _, _, _, _) => ConnectAims(s, e);
      case AssocResponse(addr3, body, memory) => AssocJoins(s, addr3, body, memory);
      case ConnectFires => FireFires(s);
      case EapolData(data, snonce, luck) =>
        if s.state == Handshaking {
          EapolKeys(s, data, snonce, luck);
        }
      case Output(da, etherType, payload, memory, copied) =>
        TxFollows(s, da, etherType, payload, memory, copied);
      case _ =>
        QuietFollows(s, e);
    }
  }

  lemma StepKeyed(s: Sta, e: Event)
    requires Safe(s) && Keyed(s)
    ensures Keyed(Step(s, e).sta)
  {
    hide Safe, Step, Keyed, Follows, Aimed, TakenIn, Fired, Rekeyed, Installed, IsMessage1Data;
    StepKeys(s, e);
    var t := Step(s, e).sta;
    if Follows(s, t) {
      KeyedOn(s, t);
    } else if e.EapolData? {
      if IsMessage1Data(e.data) {
        RekeyedKeyed(s, t);
      } else {
        InstalledKeyed(s, t);
      }
    } else if e.Connect? {
      AimedKeyed(s, t);
    } else if e.AssocResponse? {
      JoinedKeyed(s, t);
    } else {
      FiredKeyed(s, t);
    }
  }

  lemma QuietFollows(s: Sta, e: Event)
    requires Safe(s) && !e.Connect? && !e.AssocResponse? && !e.EapolData? && !e.Output? && !e.ConnectFires?
    ensures Follows(s, Step(s, e).sta)
  {
    hide LittleEndian, Follows, PowerDown, Stopped, FinishScan, OnAuth, OnDeauth, OnTimer, Disconnected,
      Started, PoweredUp, StartScan, Hop, EndManual, Fire;
    match e {
      case PowerOff(ended) => OffFollows(s, ended);
      case Stop => OffFollows(s, false);
      case ScanDone => ScanFollows(s, false);
      case ManualScanEnds =>
        ScanFollows(s, false);
        EndManualFollows(FinishScan(s));
        FollowsOn(s, FinishScan(s), EndManual(FinishScan(s)));
      case AuthResponse(addr3, body) => AuthFollows(s, addr3, body);
      case Deauth(addr1, addr2, addr3) => DeauthFollows(s, addr1, addr2, addr3);
      case Timer => TimerFollows(s);
      case Disconnect => DropFollows(s);
        FollowsItself(s);
      case Start(probed, present, powered) => StartFollows(s, probed, present, powered);
      case PowerOn(accepted) => PowerFollows(s, accepted);
      case Scan(channels, offload, accepted, thread) => StartScanFollows(s, channels, offload, accepted, thread);
      case ManualHop(home) => HopFollows(s, home);
    }
  }

  lemma {:induction false} RunKeyed(s: Sta, es: seq<Event>)
    requires Safe(s) && Keyed(s)
    ensures Keyed(Run(s, es).sta)
    decreases |es|
  {
    hide Step, Safe, Keyed;
    if |es| > 0 {
      StepKeeps(s, es[0]);
      StepKeyed(s, es[0]);
      RunKeyed(Step(s, es[0]).sta, es[1..]);
    }
  }

  lemma InitialKeyed(s: Sta)
    requires Initial(s)
    ensures Keyed(s) && Safe(s)
  {
    hide LittleEndian, PassphrasePtk, MasterKey, NoPn, NoPtk;
    StationSafety.ZeroPn();
  }

  /** In every reachable state: if a message 1 was handled since keys were last cleared, the pairwise key is the one
      an access point derives that was given the same passphrase for the same network name; if not, it is zeros. */
  lemma SamePassphraseSameKey(s: Sta, es: seq<Event>)
    requires Initial(s)
    ensures var t := Run(s, es).sta;
      t.ptk == if t.derived then PtkOf(Pbkdf2(t.password, Cut(t.target.ssid, 120), 4096), t.snonce, t.anonce, t.target.bssid, t.mac)
               else Zeros(64)
  {
    hide Run, PtkOf, Pbkdf2, Initial, Safe;
    InitialKeyed(s);
    RunKeyed(s, es);
    var t := Run(s, es).sta;
    PtkSymmetric(MasterKey(t), t.anonce, t.snonce, t.mac, t.target.bssid);
    PtkSymmetric(MasterKey(t), t.anonce, t.snonce, t.target.bssid, t.mac);
  }

  /** A WPA2 link that comes up, in any run: by an authentic message 3 under the pairwise key, which is installed and
      stays, and which is the passphrase's if and only as far as a message 1 was handled since keys were last cleared. */
  lemma LinkComesUp(s: Sta, es: seq<Event>, e: Event)
    requires Initial(s)
    requires var t := Run(s, es).sta; t.state != Connected && Step(t, e).sta.state == Connected && Step(t, e).sta.wpa2
    ensures var t := Run(s, es).sta; var u := Step(t, e).sta;
      && t.state == Handshaking && e.EapolData? && Handshake.Authentic(t.ptk, e.data)
      && u.pairwise == Some(KeyConf(Ccmp, 0, u.ptk[32..48])) && u.ptk == t.ptk && u.derived == t.derived
      && u.ptk == if u.derived then PassphrasePtk(u) else NoPtk()
  {
    hide Run, Step, PassphrasePtk, NoPtk, Handshake.Authentic, Initial, IsMessage1Data, LittleEndian, MasterKey;
    InitialKeyed(s);
    RunKeyed(s, es);
    RunKeeps(s, es);
    var t := Run(s, es).sta;
    Handshake.OnlyAuthenticConnects(t, e);
    StepKeys(t, e);
    StepKeeps(t, e);
    StepKeyed(t, e);
  }

  // Without a message 1.

  const LUCKY: Luck := Luck(true, true, true, true, true, true, true)

  /** Everything an access point of this network answers to bring the station to the handshake. */
  function ToHandshake(bss: Bss, secret: bytes): seq<Event> {
    [Start(true, true, true), Connect(true, Some(bss), secret, false, true), AuthResponse(bss.bssid, Granted()),
     AssocResponse(bss.bssid, Admitted(), true)]
  }

  lemma ReachesAuthentication(s: Sta, bss: Bss, secret: bytes)
    requires Initial(s) && bss.cipher == Ccmp
    ensures var s1 := Step(s, Start(true, true, true)).sta;
            var s2 := Step(s1, Connect(true, Some(bss), secret, false, true)).sta;
      s2.state == Authenticating && s2.attached && s2.wpa2 && s2.pending > 0 && !s2.derived && s2.ptk == NoPtk() && s2.target == bss
  {
    hide CString, NoPtk, NoPn;
  }

  lemma ReachesHandshake(s: Sta, bss: Bss, secret: bytes)
    requires Initial(s) && bss.cipher == Ccmp
    ensures var s1 := Step(s, Start(true, true, true)).sta;
            var s2 := Step(s1, Connect(true, Some(bss), secret, false, true)).sta;
            var s3 := Step(s2, AuthResponse(bss.bssid, Granted())).sta;
            var s4 := Step(s3, AssocResponse(bss.bssid, Admitted(), true)).sta;
      s4.state == Handshaking && s4.attached && s4.wpa2 && s4.peer && s4.pending > 0 && !s4.derived && s4.ptk == NoPtk()
  {
    hide Step, Initial, NoPtk;
    ReachesAuthentication(s, bss, secret);
    AuthenticationAccepted(Step(Step(s, Start(true, true, true)).sta, Connect(true, Some(bss), secret, false, true)).sta);
  }

  /** A station waiting for authentication is brought to the handshake by two good answers, its keys as they were. */
  lemma AuthenticationAccepted(s: Sta)
    requires s.state == Authenticating && s.attached && s.wpa2
    ensures var s1 := Step(s, AuthResponse(s.target.bssid, Granted())).sta;
            var s2 := Step(s1, AssocResponse(s.target.bssid, Admitted(), true)).sta;
      && s2.state == Handshaking && s2.attached && s2.wpa2 && s2.peer && s2.pending == s.pending
      && s2.derived == s.derived && s2.ptk == s.ptk && s1.installs == s.installs && s2.installs == s.installs
      && s1.sent == s.sent && s2.sent == s.sent && s2.mac == s.mac && s2.target == s.target && s2.pmk == MasterKey(s)
  {
    hide Pbkdf2, Number, Granted, Admitted;
    Successes();
  }

  lemma RunFirst(s: Sta, e: Event, es: seq<Event>)
    ensures Run(s, [e] + es).sta == Run(Step(s, e).sta, es).sta && Run(s, []).sta == s
  {
    hide Step;
    assert ([e] + es)[1..] == es;
  }

  lemma FourSteps(s: Sta, a: Event, b: Event, c: Event, d: Event)
    ensures Run(s, [a, b, c, d]).sta == Step(Step(Step(Step(s, a).sta, b).sta, c).sta, d).sta
  {
    hide Step, Run;
    var s1 := Step(s, a).sta;
    var s2 := Step(s1, b).sta;
    var s3 := Step(s2, c).sta;
    assert Run(s, [a, b, c, d]).sta == Run(s1, [b, c, d]).sta by {
      RunFirst(s, a, [b, c, d]);
      assert [a] + [b, c, d] == [a, b, c, d];
    }
    assert Run(s1, [b, c, d]).sta == Run(s2, [c, d]).sta by {
      RunFirst(s1, b, [c, d]);
      assert [b] + [c, d] == [b, c, d];
    }
    assert Run(s2, [c, d]).sta == Run(s3, [d]).sta by {
      RunFirst(s2, c, [d]);
      assert [c] + [d] == [c, d];
    }
    assert Run(s3, [d]).sta == Step(s3, d).sta by {
      RunFirst(s3, d, []);
      RunFirst(Step(s3, d).sta, d, []);
      assert [d] + [] == [d];
    }
  }

  /** A message 3 of this kind, signed under the key of the station and without key data, connects it. */
  lemma EmptyMessage3Connects(s: Sta, f: KeyFrame, random: Nonce)
    requires s.state == Handshaking && s.attached && f.info & 0x01c8 == 0x01c8 && f.data == []
    ensures var u := Step(s, EapolData(Signed(f, s.ptk[..16]), random, LUCKY)).sta;
      u.state == Connected && u.link && u.wpa2 == s.wpa2 && u.ptk == s.ptk && u.derived == s.derived
      && u.pairwise == Some(KeyConf(Ccmp, 0, s.ptk[32..48])) && u.sent == 0 && u.attached && u.peer == s.peer && u.pending == s.pending
      && u.installs == s.installs + 1 && u.mac == s.mac && u.target == s.target
  {
    hide Encode, Number, Info, MicOk, MicOf, Install, Message1, Signed;
    Message3Read(s, f, random);
    hide Step;
    EmptyInstall(s.(counter := f.counter));
  }

  lemma EmptyInstall(s: Sta)
    requires s.state == Handshaking && s.attached
    ensures var u := Install(s, None, LUCKY).sta;
      u.state == Connected && u.link && u.wpa2 == s.wpa2 && u.ptk == s.ptk && u.derived == s.derived
      && u.pairwise == Some(KeyConf(Ccmp, 0, s.ptk[32..48])) && u.sent == 0 && u.attached && u.peer == s.peer && u.pending == s.pending
      && u.installs == s.installs + 1 && u.mac == s.mac && u.target == s.target
  {
    hide SendReply, NoPn;
    var t := InstallPairwise(s, 0, Ccmp, s.ptk[32..48], true, true).0;
    Handshake.ReplyFrame(t, 4, LUCKY);
    ReplyUncounted(t, 4, LUCKY);
  }

  lemma ReplyUncounted(s: Sta, step: nat, luck: Luck)
    ensures SendReply(s, step, luck).sta.sent == s.sent
  {
    hide Signed, Reply, NextSeqCtrl, Incremented;
  }

  lemma Message3Read(s: Sta, f: KeyFrame, random: Nonce)
    requires s.state == Handshaking && f.info & 0x01c8 == 0x01c8 && f.data == []
    ensures Step(s, EapolData(Signed(f, s.ptk[..16]), random, LUCKY)) == Install(s.(counter := f.counter), None, LUCKY)
  {
    hide Encode, Number, MicOk, MicOf, Install, Message1;
    var kck := s.ptk[..16];
    SignedPasses(f, kck);
    FieldsRead(f, MicOf(kck, Encode(f, Zeros(16))));
    NotMessage1(f.info);
    NoGtkInNothing();
    var data := Signed(f, kck);
    assert data[..99] == data && data[99..99 + Number(data[97], data[98])] == [];
    assert ClearKeyData(s.ptk[16..32], Info(data), []) == Some([]);
    assert Message3(s, data, 99, LUCKY) == Install(s.(counter := f.counter), None, LUCKY);
    assert HandleEapol(s, data, random, LUCKY) == Message3(s, data, 99, LUCKY);
  }

  lemma NotMessage1(info: bv16)
    requires info & 0x01c8 == 0x01c8
    ensures info & 0x0100 != 0
  {
  }

  lemma NoGtkInNothing()
    ensures Kde.GtkOf([]) == None
  {
  }

  /** That the pairwise key of a link comes from the passphrase is false of the code in general. The input: from
      power-up, for every network and passphrase, the station is brought to the handshake and then gets a message 3
      without a message 1 before it. The link comes up under a temporal key of zeros. */
  lemma LinkWithoutMessage1(s: Sta, bss: Bss, secret: bytes, f: KeyFrame, random: Nonce)
    requires Initial(s) && bss.cipher == Ccmp && f.info & 0x01c8 == 0x01c8 && f.data == []
    ensures var u := Step(Run(s, ToHandshake(bss, secret)).sta, EapolData(Signed(f, Zeros(16)), random, LUCKY)).sta;
      && u.state == Connected && u.link && u.wpa2 && !u.derived
      && u.ptk == Zeros(64) && u.pairwise == Some(KeyConf(Ccmp, 0, Zeros(16)))
  {
    hide Step, Run, Signed, Initial;
    ReachesHandshake(s, bss, secret);
    FourSteps(s, Start(true, true, true), Connect(true, Some(bss), secret, false, true), AuthResponse(bss.bssid, Granted()),
              AssocResponse(bss.bssid, Admitted(), true));
    var t := Run(s, ToHandshake(bss, secret)).sta;
    assert t.state == Handshaking && t.attached && t.wpa2 && !t.derived && t.ptk == NoPtk();
    assert t.ptk[..16] == Zeros(16) && t.ptk[32..48] == Zeros(16);
    EmptyMessage3Connects(t, f, random);
    assert Step(t, EapolData(Signed(f, Zeros(16)), random, LUCKY)).sta.ptk == Zeros(64);
  }
}
