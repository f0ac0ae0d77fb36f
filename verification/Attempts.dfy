/** How an attempt to connect goes on and ends: by the answers of the access point, by timeouts, by leaving. */
module Attempts {
  import opened Bytes
  import opened Options
  import opened DataFrame
  import opened Eapol
  import opened KeyDerivation
  import opened StationSpec
  import opened StationSafety
  import opened Management
  import opened Links
  import Passphrase
  import Handshake
  import Kde

  // Answers.

  /** An authentication response: the station it is meant for goes on to associate if and only if the status is 0, else
      gives up; whatever algorithm and sequence number it has and whatever follows. */
  lemma AuthAnswered(s: Sta, a3: Address, algorithm: nat, sequence: nat, status: nat, rest: bytes)
    requires status < 0x1_0000 && s.attached
    ensures Step(s, AuthResponse(a3, AuthBody(algorithm, sequence, status, rest))).sta
         == if s.state != Authenticating || a3 != s.target.bssid then s
            else s.(state := if status == 0 then Associating else Idle)
  {
    hide Number, AuthBody;
    AuthStatus(algorithm, sequence, status, rest);
  }

  /** A body too short for a status counts as success. */
  lemma AuthCutShort(s: Sta, body: bytes)
    requires s.state == Authenticating && s.attached && |body| < 6
    ensures Step(s, AuthResponse(s.target.bssid, body)).sta == s.(state := Associating)
  {
  }

  /** An association response: if and only if the status is 0 the station has joined, and with WPA2 waits for the
      handshake with the master key of passphrase and name. */
  lemma AssocAnswered(s: Sta, a3: Address, capability: nat, status: nat, aid: nat, rest: bytes, memory: bool)
    requires status < 0x1_0000
    ensures Step(s, AssocResponse(a3, AssocBody(capability, status, aid, rest), memory)).sta
         == if s.state != Associating || a3 != s.target.bssid then s
            else if status != 0 then s.(state := Idle)
            else if s.wpa2 then s.(peer := s.peer || memory, state := Handshaking, pmk := Passphrase.MasterKey(s))
            else s.(peer := s.peer || memory, state := Connected, link := true)
  {
    hide Number, AssocBody, Pbkdf2;
    AssocStatus(capability, status, aid, rest);
  }

  lemma AssocCutShort(s: Sta, body: bytes, memory: bool)
    requires s.state == Associating && |body| < 6
    ensures Step(s, AssocResponse(s.target.bssid, body, memory)).sta == s.(state := Idle)
  {
  }

  // Timeouts.

  function Timeouts(n: nat): seq<Event> {
    if n == 0 then [] else [Timer] + Timeouts(n - 1)
  }

  /** What one timeout does. */
  lemma TimeoutIs(s: Sta)
    requires Safe(s)
    ensures var t := Step(s, Timer).sta;
      && (s.state == Authenticating ==> t == s)
      && (s.state == Associating ==> t == s.(state := Idle))
      && (s.state == Handshaking ==> t.state == Idle && Forgotten(t) && !t.peer && !t.link)
      && (s.state == Scanning ==> t == if s.manual > 0 then s else s.(state := Idle))
      && (s.state in {Idle, Connected} ==> t == s)
  {
    hide LittleEndian, Disconnected, Resume, Forgotten;
    ResumeKeeps(s);
    if s.attached {
      DisconnectForgets(s);
    }
  }

  /** Without answers: an attempt that waits for association or the handshake is over with the first timeout and nothing
      follows; one that waits for authentication tries again with every timeout and is never given up. */
  lemma {:induction false} Unanswered(s: Sta, n: nat)
    requires Safe(s)
    ensures var t := Run(s, Timeouts(n)).sta;
      && (s.state in {Associating, Handshaking} && n > 0 ==> t.state == Idle)
      && (s.state in {Authenticating, Connected, Idle} ==> t == s)
    decreases n
  {
    hide Step, Safe, Forgotten;
    if n > 0 {
      TimeoutIs(s);
      StepKeeps(s, Timer);
      Passphrase.RunFirst(s, Timer, Timeouts(n - 1));
      Unanswered(Step(s, Timer).sta, n - 1);
    }
  }

  // Leaving.

  /** No key of any kind is left, nor anything to make one from a nonce. */
  predicate Forgotten(t: Sta) {
    t.pairwise.None? && t.group.None? && t.ptk == Zeros(64) && t.pn == Zeros(6) && t.sent == 0 && !t.derived
  }

  /** The events by which a station leaves, or gives up what it had: a disconnect, a deauthentication that counts, powering
      off, stopping, and a connect command that is taken; the last three also when there was no connection. */
  predicate Leaves(s: Sta, e: Event) {
    match e
    case Disconnect => s.state != Idle
    case Deauth(addr1, addr2, addr3) => EndsConnection(s, addr1, addr2, addr3)
    case PowerOff(_) => true
    case Stop => true
    case Connect(ssidGiven, _, _, ended, _) => ssidGiven && AbortScan(s, ended).state == Idle
    case _ => false
  }

  /** All of them forget all keys; all but a deauthentication give up the peer record, and all but a connect command with
      a known network end at rest. */
  lemma LeavingForgets(s: Sta, e: Event)
    requires Safe(s) && s.attached && Leaves(s, e)
    ensures var t := Step(s, e).sta;
      Forgotten(t) && (!e.Deauth? ==> !t.peer) && (if e.Connect? && e.found.Some? then t.state == Authenticating else t.state == Idle)
  {
    hide Safe, EndsConnection, Leave, Disconnected, Forgotten, Connecting, PowerDown, Stopped, OnDeauth, AbortScan;
    match e {
      case Disconnect => DisconnectForgets(s);
      case Deauth(addr1, addr2, addr3) => DeauthForgets(s, addr1, addr2, addr3);
      case PowerOff(ended) => OffForgets(s, ended);
      case Stop => StopForgets(s);
      case Connect(_, _, _, _, _) => ConnectForgets(s, e);
      case _ =>
    }
  }

  lemma DeauthForgets(s: Sta, addr1: Address, addr2: Address, addr3: Address)
    requires EndsConnection(s, addr1, addr2, addr3)
    ensures Forgotten(OnDeauth(s, addr1, addr2, addr3)) && OnDeauth(s, addr1, addr2, addr3).state == Idle
  {
    hide EndsConnection;
  }

  lemma SameForgotten(s: Sta, t: Sta)
    requires Forgotten(s) && t.pairwise == s.pairwise && t.group == s.group && t.ptk == s.ptk && t.pn == s.pn && t.sent == s.sent
    requires t.derived == s.derived
    ensures Forgotten(t)
  {
  }

  lemma OffForgets(s: Sta, ended: bool)
    requires s.attached
    ensures Forgotten(PowerDown(s, ended)) && !PowerDown(s, ended).peer && PowerDown(s, ended).state == Idle
  {
    hide Forgotten, AbortScan, Leave;
    var s1 := AbortScan(s, ended);
    AbortAttached(s, ended);
    var joined := s1.state in {Connected, Authenticating, Associating, Handshaking};
    LeaveForgets(s1, joined);
    SameForgotten(Leave(s1, joined), PowerDown(s, ended));
  }

  lemma StopForgets(s: Sta)
    requires s.attached
    ensures Forgotten(Stopped(s)) && !Stopped(s).peer && Stopped(s).state == Idle
  {
    hide Forgotten, Leave;
    var joined := (s.state == Connected || (s.state == Scanning && s.scanReturn == Connected)) && s.powered;
    LeaveForgets(s, joined);
    SameForgotten(Leave(s, joined), Stopped(s));
  }

  lemma ConnectForgets(s: Sta, e: Event)
    requires s.attached && e.Connect? && Leaves(s, e)
    ensures var t := Connecting(s, e);
      Forgotten(t) && !t.peer && t.state == if e.found.Some? then Authenticating else Idle
  {
    hide Forgotten, AbortScan, CString, Leave;
    var s2 := Leave(AbortScan(s, e.ended), false);
    AbortAttached(s, e.ended);
    LeaveForgets(AbortScan(s, e.ended), false);
    LeavesAs(AbortScan(s, e.ended));
    SameForgotten(s2, Connecting(s, e));
  }

  lemma LeavesAs(s: Sta)
    ensures Leave(s, false) == ReleasePeer(ClearKeys(s)) && Leave(s, false).state == s.state
  {
  }

  lemma AbortAttached(s: Sta, ended: bool)
    ensures AbortScan(s, ended).attached == s.attached
  {
  }

  lemma DisconnectForgets(s: Sta)
    requires s.attached
    ensures Forgotten(Disconnected(s)) && !Disconnected(s).peer && Disconnected(s).state == Idle && !Disconnected(s).link
  {
  }

  lemma LeaveForgets(s: Sta, joined: bool)
    requires s.attached
    ensures Forgotten(Leave(s, joined)) && !Leave(s, joined).peer
  {
    hide Disconnected;
    DisconnectForgets(s);
  }

  // Power.

  /** A stopped station is neither attached nor powered; a start that finds device and hardware attaches it again, and it
      has power if the driver could start it. */
  lemma StopThenStart(s: Sta, probed: bool, present: bool, powered: bool)
    requires s.attached
    ensures var t := Step(s, Stop).sta; var u := Step(t, Start(probed, present, powered)).sta;
      && !t.attached && !t.powered && (u.attached <==> probed && present) && (u.powered <==> probed && powered)
      && u.state == Idle
  {
    hide Leave;
    LeaveOnly(s, (s.state == Connected || (s.state == Scanning && s.scanReturn == Connected)) && s.powered);
  }

  /** Powering off leaves a resting station without power; powering on gives it power if the driver accepts, and nothing
      else changes. */
  lemma OffThenOn(s: Sta, ended: bool, accepted: bool)
    requires s.attached
    ensures var t := Step(s, PowerOff(ended)).sta;
      !t.powered && t.attached && t.state == Idle && !t.link && Step(t, PowerOn(accepted)).sta == t.(powered := accepted)
  {
    hide PowerDown;
    PowerDownOnly(s, ended);
  }

  lemma PowerDownOnly(s: Sta, ended: bool)
    ensures var t := PowerDown(s, ended); !t.powered && t.attached == s.attached && t.state == Idle && !t.link
  {
    hide AbortScan, Leave;
    AbortAttached(s, ended);
    LeaveOnly(AbortScan(s, ended), AbortScan(s, ended).state in {Connected, Authenticating, Associating, Handshaking});
  }

  // Scans.

  /** A scan starts from rest only, with hardware and channels to scan, by the firmware if it can and will, else by hand if
      there is a thread; and nothing but the scan itself is touched. */
  lemma ScanStarts(s: Sta, channels: nat, offload: bool, accepted: bool, thread: bool)
    requires Safe(s)
    ensures var t := Step(s, Scan(channels, offload, accepted, thread)).sta;
      var byFirmware := offload && accepted;
      if s.state == Idle && s.attached && channels > 0 && (byFirmware || thread)
      then t == s.(state := Scanning, manual := if byFirmware then s.manual else channels)
      else t == s
  {
    hide LittleEndian;
  }

  /** However a scan ends, the station is as it was before: finished, aborted and waited for, given up, or timed out. */
  lemma ScanUndone(s: Sta, channels: nat, offload: bool, accepted: bool, thread: bool, ended: bool)
    requires Safe(s) && s.state == Idle && s.manual == 0
    ensures var t := Step(s, Scan(channels, offload, accepted, thread)).sta;
      && Step(t, ManualScanEnds).sta == s
      && (t.manual == 0 ==> Step(t, ScanDone).sta == s && AbortScan(t, ended) == s && Step(t, Timer).sta == s)
      && (t.manual > 0 ==> AbortScan(t, false) == t && Step(t, Timer).sta == t)
  {
    hide Step, Safe;
    ScanStarts(s, channels, offload, accepted, thread);
    var t := Step(s, Scan(channels, offload, accepted, thread)).sta;
    assert s.scanReturn == Idle && !s.onHome by { RestFields(s); }
    if t != s {
      ScanEnds(s, t.manual, ended);
    } else {
      NoScanEnds(s, ended);
    }
  }

  lemma RestFields(s: Sta)
    requires Safe(s)
    ensures s.scanReturn == Idle && !s.onHome
  {
  }

  lemma ScanEnds(s: Sta, manual: nat, ended: bool)
    requires s.state == Idle && s.scanReturn == Idle && !s.onHome && s.manual == 0
    ensures var t := s.(state := Scanning, manual := manual);
      && Step(t, ManualScanEnds).sta == s
      && (manual == 0 ==> Step(t, ScanDone).sta == s && AbortScan(t, ended) == s && Step(t, Timer).sta == s)
      && (manual > 0 ==> AbortScan(t, false) == t && Step(t, Timer).sta == t)
  {
  }

  lemma NoScanEnds(s: Sta, ended: bool)
    requires s.state == Idle && s.scanReturn == Idle && !s.onHome && s.manual == 0
    ensures Step(s, ManualScanEnds).sta == s && Step(s, ScanDone).sta == s && AbortScan(s, ended) == s && Step(s, Timer).sta == s
  {
  }

  // The link status.

  /** The system is told of an active link exactly while there is a connection. */
  predicate LinkTrue(s: Sta) {
    s.link <==> s.state == Connected
  }

  /** The events after which an active link is still reported although the connection is gone: the connect thread running
      over it, the interface starting anew, or stopping while connected without power. */
  predicate LeavesLink(s: Sta, e: Event) {
    s.state == Connected
    && ((e.ConnectFires? && s.pending > 0) || (e.Start? && e.probed) || (e.Stop? && !s.powered))
  }

  lemma QuietLink(s: Sta, e: Event)
    requires Safe(s) && LinkTrue(s) && !e.EapolData? && !e.Output? && !e.AssocResponse? && !e.Connect?
    ensures LinkTrue(Step(s, e).sta) <==> !LeavesLink(s, e)
  {
    hide LittleEndian, FinishScan, Disconnected, Number, OnDeauth, PowerDown, Stopped, OnAuth, OnTimer, StartScan;
    match e {
      case PowerOff(ended) => PowerDownLink(s, ended);
      case Stop => StoppedLink(s);
      case Scan(channels, offload, accepted, thread) => StartScanLink(s, channels, offload, accepted, thread);
      case ScanDone => FinishLink(s);
      case ManualScanEnds => FinishLink(s);
      case AuthResponse(addr3, body) => AuthLink(s, addr3, body);
      case Deauth(addr1, addr2, addr3) => DeauthLink(s, addr1, addr2, addr3);
      case Timer => TimerLink(s);
      case Disconnect => DisconnectedLink(s);
      case _ =>
    }
  }

  lemma PowerDownLink(s: Sta, ended: bool)
    ensures PowerDown(s, ended).state == Idle && !PowerDown(s, ended).link
  {
    hide AbortScan, Leave;
  }

  lemma StoppedLink(s: Sta)
    requires Safe(s) && LinkTrue(s)
    ensures LinkTrue(Stopped(s)) <==> !LeavesLink(s, Stop)
  {
    hide LittleEndian, Disconnected, NoPtk, NoPn;
    DisconnectedLink(s);
  }

  lemma StartScanLink(s: Sta, channels: nat, offload: bool, accepted: bool, thread: bool)
    requires LinkTrue(s)
    ensures LinkTrue(StartScan(s, channels, offload, accepted, thread))
  {
    hide Scanned;
    ScannedOnward(s.(scanReturn := Idle, state := Scanning), channels, offload, accepted, thread);
    ScannedLink(s.(scanReturn := Idle, state := Scanning), channels, offload, accepted, thread);
  }

  lemma ScannedLink(s: Sta, channels: nat, offload: bool, accepted: bool, thread: bool)
    ensures Scanned(s, channels, offload, accepted, thread).link == s.link
  {
  }

  lemma FinishLink(s: Sta)
    requires Safe(s) && LinkTrue(s)
    ensures LinkTrue(FinishScan(s))
  {
    hide LittleEndian;
  }

  lemma AuthLink(s: Sta, addr3: Address, body: bytes)
    requires LinkTrue(s)
    ensures LinkTrue(OnAuth(s, addr3, body))
  {
    hide Number;
  }

  lemma DeauthLink(s: Sta, addr1: Address, addr2: Address, addr3: Address)
    requires LinkTrue(s)
    ensures LinkTrue(OnDeauth(s, addr1, addr2, addr3))
  {
    hide EndsConnection;
  }

  lemma TimerLink(s: Sta)
    requires Safe(s) && LinkTrue(s)
    ensures LinkTrue(OnTimer(s))
  {
    hide LittleEndian, Disconnected;
    DisconnectedLink(s);
  }

  lemma DisconnectedLink(s: Sta)
    requires Safe(s) && LinkTrue(s)
    ensures Disconnected(s).state == Idle && !Disconnected(s).link
  {
    hide LittleEndian, NoPtk, NoPn;
  }

  lemma ConnectLink(s: Sta, e: Event)
    requires Safe(s) && LinkTrue(s) && e.Connect?
    ensures LinkTrue(Connecting(s, e))
  {
    hide LittleEndian, CString, NoPtk, NoPn, AbortScan;
    AbortLink(s, e.ended);
  }

  lemma AbortLink(s: Sta, ended: bool)
    requires Safe(s) && LinkTrue(s)
    ensures LinkTrue(AbortScan(s, ended))
  {
    hide LittleEndian;
  }

  lemma AssocLink(s: Sta, addr3: Address, body: bytes, memory: bool)
    requires LinkTrue(s)
    ensures LinkTrue(OnAssoc(s, addr3, body, memory))
  {
    hide Number, Associated;
    if s.state == Associating {
      AssociatedLink(s, memory);
    }
  }

  lemma AssociatedLink(s: Sta, memory: bool)
    requires LinkTrue(s) && s.state == Associating
    ensures LinkTrue(Associated(s, memory))
  {
    hide Pbkdf2;
  }

  // The link status in the handshake.

  lemma LastReplyLink(s: Sta, luck: Luck)
    ensures LinkTrue(LastReply(s, luck).sta)
  {
    hide SendReply;
  }

  lemma ReplyLink(s: Sta, step: nat, luck: Luck)
    ensures SendReply(s, step, luck).sta.link == s.link && SendReply(s, step, luck).sta.state == s.state
  {
    hide SendReply;
    Handshake.ReplyFrame(s, step, luck);
  }

  lemma CompleteLink(s: Sta, gtk: Option<Kde.Gtk>, luck: Luck)
    requires LinkTrue(s)
    ensures LinkTrue(Complete(s, gtk, luck).sta)
  {
    hide InstallGroup, LastReply;
    LastReplyLink(s, luck);
    if gtk.Some? {
      var u := InstallGroup(s, gtk.value.index, GroupCipher(s), gtk.value.key, luck.groupMemory, luck.groupSet).0;
      GroupKeeps(s, gtk.value.index, GroupCipher(s), gtk.value.key, luck.groupMemory, luck.groupSet);
      LastReplyLink(u, luck);
    }
  }

  lemma InstallLink(s: Sta, gtk: Option<Kde.Gtk>, luck: Luck)
    requires LinkTrue(s)
    ensures LinkTrue(Install(s, gtk, luck).sta)
  {
    hide InstallPairwise, Complete;
    OnlyPairwise(s, 0, Ccmp, s.ptk[32..48], luck.pairwiseMemory, luck.pairwiseSet);
    CompleteLink(InstallPairwise(s, 0, Ccmp, s.ptk[32..48], luck.pairwiseMemory, luck.pairwiseSet).0, gtk, luck);
  }

  lemma EapolLink(s: Sta, data: bytes, snonce: Nonce, luck: Luck)
    requires LinkTrue(s)
    ensures LinkTrue(HandleEapol(s, data, snonce, luck).sta)
  {
    hide Number, Info, MicOk, ClearKeyData, Kde.GtkOf, Install, SendReply, PtkOf;
    if |data| >= 99 {
      var anonce: Nonce := data[17..49];
      ReplyLink(s.(anonce := anonce, snonce := snonce, ptk := PtkOf(s.pmk, anonce, snonce, s.mac, s.target.bssid),
                   counter := data[9..17], derived := true), 2, luck);
      var t := s.(counter := data[9..17]);
      forall gtk
        ensures LinkTrue(Install(t, gtk, luck).sta)
      {
        InstallLink(t, gtk, luck);
      }
    }
  }

  lemma TxLink(s: Sta, da: Address, etherType: bytes, payload: bytes, memory: bool, copied: bool)
    requires |etherType| == 2
    ensures var t := TxData(s, da, etherType, payload, memory, copied).sta; t.link == s.link && t.state == s.state
  {
    hide Counted, NextSeqCtrl;
    CountedKeeps(s, Protects(s, etherType));
  }

  /** Every event keeps the link status true to the connection, but for three, which leave it active without one. */
  lemma LinkStaysTrue(s: Sta, e: Event)
    requires Safe(s) && LinkTrue(s)
    ensures LinkTrue(Step(s, e).sta) <==> !LeavesLink(s, e)
  {
    hide Safe, Connecting, OnAssoc, HandleEapol, TxData;
    match e {
      case Connect(_, _, _, _, _) => ConnectLink(s, e);
      case AssocResponse(addr3, body, memory) => AssocLink(s, addr3, body, memory);
      case EapolData(data, snonce, luck) => EapolLink(s, data, snonce, luck);
      case Output(da, etherType, payload, memory, copied) => TxLink(s, da, etherType, payload, memory, copied);
      case _ => QuietLink(s, e);
    }
  }

  predicate NeverLeavesLink(s: Sta, es: seq<Event>)
    decreases |es|
  {
    hide Step, LeavesLink;
    |es| == 0 || (!LeavesLink(s, es[0]) && NeverLeavesLink(Step(s, es[0]).sta, es[1..]))
  }

  lemma {:induction false} RunLinkTrue(s: Sta, es: seq<Event>)
    requires Safe(s) && LinkTrue(s) && NeverLeavesLink(s, es)
    ensures LinkTrue(Run(s, es).sta)
    decreases |es|
  {
    hide Step, Safe, LinkTrue, LeavesLink;
    if |es| > 0 {
      LinkStaysTrue(s, es[0]);
      StepKeeps(s, es[0]);
      RunLinkTrue(Step(s, es[0]).sta, es[1..]);
    }
  }
}
