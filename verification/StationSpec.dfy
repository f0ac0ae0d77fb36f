/** The connection and key state machine: its state, and what every event does to it. */
module StationSpec {
  import opened Bytes
  import opened Options
  import opened AesSpec
  import opened Amsdu
  import opened DataFrame
  import opened KeyDerivation
  import opened Eapol
  import KeyWrap
  import Kde

  datatype State = Idle | Scanning | Authenticating | Associating | Handshaking | Connected | Disconnecting

  datatype Cipher = NoCipher | Ccmp | Tkip

  datatype Bss = Bss(bssid: Address, ssid: bytes, cipher: Cipher, groupCipher: Cipher)

  datatype KeyConf = KeyConf(cipher: Cipher, index: bv8, key: bytes)

  /** The fields of the station; pending counts the runs of the connect thread still to come. The last three are for
      the record and the driver keeps none of them: pairwise installations, protected frames since the last of them,
      and whether a message 1 was handled since the keys were last cleared. */
  datatype Sta = Sta(
    state: State, scanReturn: State, attached: bool, powered: bool, peer: bool, mac: Address,
    wpa2: bool, target: Bss, password: bytes, pmk: bytes, ptk: Ptk, pairwise: Option<KeyConf>, group: Option<KeyConf>,
    pn: Pn, anonce: Nonce, snonce: Nonce, counter: Counter, link: bool, pending: nat, manual: nat, onHome: bool,
    dataSeq: nat, txSeq: nat, installs: nat, sent: nat, derived: bool)

  /** A data frame given to the driver, with the key it is to be encrypted under. */
  datatype Sent = Sent(content: Content, key: Option<KeyConf>, epoch: nat, ordinal: nat)

  datatype Outcome = Outcome(sta: Sta, sent: seq<Sent>)

  function NoPtk(): Ptk {
    Zeros(64)
  }

  function NoPn(): Pn {
    Zeros(6)
  }

  function ClearKeys(s: Sta): Sta {
    s.(pairwise := None, group := None, ptk := NoPtk(), pn := NoPn(), sent := 0, derived := false)
  }

  function ReleasePeer(s: Sta): Sta {
    if s.peer then s.(peer := false, dataSeq := 0) else s
  }

  /** Whether a key of this length can be installed for the cipher. */
  predicate Installable(cipher: Cipher, key: bytes) {
    (cipher == Ccmp && |key| == 16) || (cipher == Tkip && |key| == 32)
  }

  /** Installing a key: memory and accepted say whether the allocation and the driver's set_key succeed. */
  function InstallPairwise(s: Sta, index: bv8, cipher: Cipher, key: bytes, memory: bool, accepted: bool): (r: (Sta, bool)) {
    if !s.attached || !Installable(cipher, key) then (s, false)
    else if !memory || !accepted then (s.(pairwise := None), false)
    else (s.(pairwise := Some(KeyConf(cipher, index, key)), pn := NoPn(), installs := s.installs + 1, sent := 0), true)
  }

  function InstallGroup(s: Sta, index: bv8, cipher: Cipher, key: bytes, memory: bool, accepted: bool): (r: (Sta, bool)) {
    if !s.attached || !Installable(cipher, key) then (s, false)
    else if !memory || !accepted then (s.(group := None), false)
    else (s.(group := Some(KeyConf(cipher, index, key))), true)
  }

  function InstallInto(s: Sta, pairwise: bool, index: bv8, cipher: Cipher, key: bytes, memory: bool, accepted: bool): (r: (Sta, bool)) {
    if pairwise then InstallPairwise(s, index, cipher, key, memory, accepted) else InstallGroup(s, index, cipher, key, memory, accepted)
  }

  /** Whether a frame of this ethertype goes out encrypted. */
  predicate Protects(s: Sta, etherType: EtherType) {
    s.wpa2 && s.pairwise.Some? && etherType != PAE
  }

  /** QoS frames are used unless the pairwise cipher is TKIP. */
  predicate UsesQos(s: Sta) {
    s.target.cipher != Tkip
  }

  /** The counters after one more frame: the packet number if it is protected, and the sequence number
      of its kind. */
  function Counted(s: Sta, protected: bool): Sta {
    s.(pn := if protected then Incremented(s.pn) else s.pn, sent := if protected then s.sent + 1 else s.sent,
       dataSeq := if UsesQos(s) then (s.dataSeq + 1) % 0x1_0000 else s.dataSeq,
       txSeq := if UsesQos(s) then s.txSeq else (s.txSeq + 1) % 0x1_0000)
  }

  /** The sequence-control field of the next frame. */
  function NextSeqCtrl(s: Sta): nat {
    SeqCtrl(if UsesQos(s) then s.dataSeq else s.txSeq)
  }

  /** A data frame, once it has been counted. */
  function DataFrameOf(s: Sta, seqCtrl: nat, da: Address, etherType: EtherType, payload: bytes): Sent {
    var key := if Protects(s, etherType) then s.pairwise else None;
    var index := if key.Some? then Some(key.value.index) else None;
    Sent(Content(UsesQos(s), index, s.pn, s.target.bssid, s.mac, da, seqCtrl, 0, etherType, payload), key, s.installs, s.sent)
  }

  /** Sending one Ethernet frame. Protection depends on the link and the ethertype; memory says whether a
      buffer could be had, copied whether the payload could be copied into it. */
  function TxData(s: Sta, da: Address, etherType: EtherType, payload: bytes, memory: bool, copied: bool): Outcome {
    hide SeqCtrl, Counted, DataFrameOf, NextSeqCtrl;
    if !s.attached || !s.peer || 14 + |payload| > 2048 || !memory then Outcome(s, [])
    else
      var t := Counted(s, Protects(s, etherType));
      Outcome(t, if copied || |payload| == 0 then [DataFrameOf(t, NextSeqCtrl(s), da, etherType, payload)] else [])
  }

  /** The sequence-control field of a 12-bit sequence number. */
  function SeqCtrl(seq': nat): nat {
    seq' % 4096 * 16
  }

  /** Outcomes of the allocations, copies and driver calls inside one event. */
  datatype Luck = Luck(pairwiseMemory: bool, pairwiseSet: bool, groupMemory: bool, groupSet: bool,
                       micMemory: bool, txMemory: bool, txCopied: bool)

  function SendReply(s: Sta, step: nat, luck: Luck): Outcome {
    hide Signed, Reply;
    TxData(s, s.target.bssid, PAE, Signed(Reply(step, s.counter, s.snonce, s.target.groupCipher == Tkip), s.ptk[..16]),
           luck.txMemory, luck.txCopied)
  }

  function Message1(s: Sta, data: bytes, snonce: Nonce, luck: Luck): Outcome
    requires |data| >= 99
  {
    hide PtkOf, SendReply;
    var anonce: Nonce := data[17..49];
    SendReply(s.(anonce := anonce, snonce := snonce, ptk := PtkOf(s.pmk, anonce, snonce, s.mac, s.target.bssid),
                 counter := data[9..17], derived := true), 2, luck)
  }

  /** The key data of message 3 in the clear, or None when it does not unwrap. */
  function ClearKeyData(kek: Block, info: bv16, keyData: bytes): Option<bytes> {
    hide KeyWrap.UnwrapResult;
    if |keyData| == 0 || info & 0x1000 == 0 then Some(keyData) else KeyWrap.UnwrapResult(kek, keyData)
  }

  function Message3(s: Sta, data: bytes, eapolLen: nat, luck: Luck): Outcome
    requires 99 <= eapolLen <= |data|
  {
    hide MicOk, ClearKeyData, Kde.GtkOf, Number, SendReply, InstallPairwise, InstallGroup;
    var n := Number(data[97], data[98]);
    if !luck.micMemory || !MicOk(s.ptk[..16], data[..eapolLen]) || 99 + n > eapolLen then Outcome(s, [])
    else
      var clear := ClearKeyData(s.ptk[16..32], Info(data), data[99..99 + n]);
      if clear.None? then Outcome(s, []) else Install(s.(counter := data[9..17]), Kde.GtkOf(clear.value), luck)
  }

  /** The installation at the end of the handshake: pairwise key, then the rest. */
  function Install(s: Sta, gtk: Option<Kde.Gtk>, luck: Luck): Outcome {
    hide Complete, InstallPairwise;
    var (s1, ok1) := InstallPairwise(s, 0, Ccmp, s.ptk[32..48], luck.pairwiseMemory, luck.pairwiseSet);
    if ok1 then Complete(s1, gtk, luck) else Outcome(s1, [])
  }

  function GroupCipher(s: Sta): Cipher {
    if s.target.groupCipher == Tkip then Tkip else Ccmp
  }

  /** Group key if there is one, then message 4, then connected. */
  function Complete(s: Sta, gtk: Option<Kde.Gtk>, luck: Luck): Outcome {
    hide InstallGroup, SendReply;
    if gtk.None? || |gtk.value.key| == 0 then LastReply(s, luck)
    else
      var (s1, ok1) := InstallGroup(s, gtk.value.index, GroupCipher(s), gtk.value.key, luck.groupMemory, luck.groupSet);
      if ok1 then LastReply(s1, luck) else Outcome(s1, [])
  }

  function LastReply(s: Sta, luck: Luck): Outcome {
    hide SendReply;
    var o := SendReply(s, 4, luck);
    Outcome(o.sta.(state := Connected, link := true), o.sent)
  }

  function HandleEapol(s: Sta, data: bytes, snonce: Nonce, luck: Luck): Outcome {
    hide Message1, Message3, Number;
    if |data| < 99 || data[1] != 3 then Outcome(s, [])
    else
      var eapolLen := 4 + Number(data[2], data[3]);
      if eapolLen > |data| || eapolLen < 99 then Outcome(s, [])
      else if Info(data) & 0x0088 == 0x0088 && Info(data) & 0x0100 == 0 then Message1(s, data, snonce, luck)
      else if Info(data) & 0x01c8 == 0x01c8 then Message3(s, data, eapolLen, luck)
      else Outcome(s, [])
  }

  // The other events.

  datatype Event =
    | Start(probed: bool, present: bool, powered: bool)
    | Stop
    | PowerOn(accepted: bool)
    | PowerOff(ended: bool)
    | Scan(channels: nat, offload: bool, accepted: bool, thread: bool)
    | ScanDone
    | ManualScanEnds
    | ManualHop(home: bool)
    | Connect(ssidGiven: bool, found: Option<Bss>, password: bytes, ended: bool, thread: bool)
    | ConnectFires
    | AuthResponse(addr3: Address, body: bytes)
    | AssocResponse(addr3: Address, body: bytes, memory: bool)
    | Deauth(addr1: Address, addr2: Address, addr3: Address)
    | EapolData(data: bytes, snonce: Nonce, luck: Luck)
    | Disconnect
    | Timer
    | Output(da: Address, etherType: EtherType, payload: bytes, memory: bool, copied: bool)

  /** The state a finished or abandoned scan goes back to. */
  function Resume(s: Sta): Sta {
    s.(state := if s.scanReturn == Idle then Idle else s.scanReturn, scanReturn := Idle)
  }

  function FinishScan(s: Sta): Sta {
    if s.state == Scanning then Resume(s).(onHome := false) else s
  }

  /** Aborting a scan and waiting for it; ended says whether it finished while being waited for. */
  function AbortScan(s: Sta, ended: bool): Sta {
    if s.state != Scanning then s
    else if ended then FinishScan(s)
    else if s.manual > 0 then s
    else Resume(s).(manual := 0, onHome := false)
  }

  function StartScan(s: Sta, channels: nat, offload: bool, accepted: bool, thread: bool): Sta {
    if s.state != Idle || !s.attached then s
    else Scanned(s.(scanReturn := Idle, state := Scanning), channels, offload, accepted, thread)
  }

  /** By the firmware if it can and will, else channel by channel, else not at all. */
  function Scanned(s: Sta, channels: nat, offload: bool, accepted: bool, thread: bool): Sta {
    if channels == 0 then Rested(s)
    else if offload && accepted then s
    else if thread then s.(manual := channels, onHome := false)
    else Rested(s)
  }

  function Rested(s: Sta): Sta {
    s.(state := Idle, scanReturn := Idle)
  }

  function Connecting(s: Sta, e: Event): Sta
    requires e.Connect?
  {
    var s1 := AbortScan(s, e.ended);
    if s1.state != Idle || !e.ssidGiven then s1
    else
      var s2 := ReleasePeer(ClearKeys(s1));
      if e.found.None? then s2 else Aim(s2, e.found.value, e.password, e.thread)
  }

  /** Taking up a target; thread says whether one more run of the thread that will authenticate comes of it. */
  function Aim(s: Sta, target: Bss, password: bytes, thread: bool): Sta {
    s.(target := target, password := Cut(CString(password), 63), wpa2 := target.cipher == Ccmp,
       state := Authenticating, pending := if thread then s.pending + 1 else s.pending)
  }

  function Cut(b: bytes, n: nat): (c: bytes)
    ensures |c| <= n
  {
    if |b| > n then b[..n] else b
  }

  function Authenticate(s: Sta): Sta {
    if s.attached then s.(state := Authenticating) else s
  }

  function Associate(s: Sta): Sta {
    if s.attached then s.(state := Associating) else s
  }

  function OnAuth(s: Sta, addr3: Address, body: bytes): Sta {
    hide Number;
    if s.state != Authenticating || addr3 != s.target.bssid then s
    else if |body| >= 6 && Number(body[5], body[4]) != 0 then s.(state := Idle)
    else Associate(s)
  }

  function OnAssoc(s: Sta, addr3: Address, body: bytes, memory: bool): Sta {
    hide Number, Associated;
    if s.state != Associating || addr3 != s.target.bssid then s
    else if |body| < 6 || Number(body[3], body[2]) != 0 then s.(state := Idle)
    else Associated(s, memory)
  }

  function Associated(s: Sta, memory: bool): Sta {
    hide Pbkdf2;
    var s1 := s.(peer := s.peer || memory);
    if s.wpa2 then s1.(state := Handshaking, pmk := Pbkdf2(s.password, Cut(s.target.ssid, 120), 4096))
    else s1.(state := Connected, link := true)
  }

  const BROADCAST: Address := [0xff, 0xff, 0xff, 0xff, 0xff, 0xff]

  /** Whether a deauthentication with these addresses ends the connection. */
  predicate EndsConnection(s: Sta, addr1: Address, addr2: Address, addr3: Address) {
    && MayReceive(s)
    && (addr3 == s.target.bssid || addr2 == s.target.bssid) && (addr1 == s.mac || addr1 == BROADCAST)
  }

  function OnDeauth(s: Sta, addr1: Address, addr2: Address, addr3: Address): Sta {
    if !EndsConnection(s, addr1, addr2, addr3) then s
    else ClearKeys(s).(state := Idle, scanReturn := Idle, link := false)
  }

  function Disconnected(s: Sta): Sta {
    if !s.attached then s.(state := Idle, scanReturn := Idle)
    else ReleasePeer(ClearKeys(s)).(state := Idle, scanReturn := Idle, link := false)
  }

  function OnTimer(s: Sta): Sta {
    match s.state
    case Scanning => if s.manual > 0 then s else Resume(s)
    case Authenticating => Authenticate(s)
    case Associating => s.(state := Idle)
    case Handshaking => Disconnected(s)
    case Idle => s
    case Connected => s
    case Disconnecting => s
  }

  /** Leaving the network for good: with a deauthentication if there is a connection to end. */
  function Leave(s: Sta, joined: bool): Sta {
    if joined then Disconnected(s) else ReleasePeer(ClearKeys(s))
  }

  function PowerDown(s: Sta, ended: bool): Sta {
    hide AbortScan, Leave;
    var s1 := AbortScan(s, ended);
    Leave(s1, s1.state in {Connected, Authenticating, Associating, Handshaking})
      .(powered := false, state := Idle, scanReturn := Idle, link := false)
  }

  function Stopped(s: Sta): Sta {
    hide Leave;
    var s1 := Leave(s, (s.state == Connected || (s.state == Scanning && s.scanReturn == Connected)) && s.powered);
    s1.(attached := false, powered := if s.attached then false else s1.powered, state := Idle, scanReturn := Idle)
  }

  /** Probing the device, finding hardware and interface, and starting it can each fail. */
  function Started(s: Sta, probed: bool, present: bool, powered: bool): Sta {
    if !probed then s
    else s.(attached := present, powered := s.powered || powered, state := Idle, scanReturn := Idle)
  }

  function PoweredUp(s: Sta, accepted: bool): Sta {
    if s.powered || (s.attached && accepted) then Settled(s.(powered := true)) else s
  }

  function Settled(s: Sta): Sta {
    if s.state == Disconnecting then s.(state := Idle) else s
  }

  /** The thread that scans by hand moves to a channel, or to the home channel of a connection. */
  function Hop(s: Sta, home: bool): Sta {
    s.(onHome := home && s.scanReturn == Connected)
  }

  function EndManual(s: Sta): Sta {
    s.(onHome := false, manual := 0)
  }

  /** The connect thread runs, whenever that is: it does not look at the state. */
  function Fire(s: Sta): Sta {
    if s.pending > 0 then Authenticate(s.(pending := s.pending - 1)) else s
  }

  /** Whether data frames from the network stack may go out. */
  predicate MaySend(s: Sta) {
    s.state == Connected || (s.state == Scanning && s.scanReturn == Connected && (s.manual == 0 || s.onHome))
  }

  function Step(s: Sta, e: Event): Outcome {
    hide HandleEapol, TxData, Connecting, OnAssoc, OnAuth;
    match e
    case Start(probed, present, powered) => Outcome(Started(s, probed, present, powered), [])
    case Stop => Outcome(Stopped(s), [])
    case PowerOn(accepted) => Outcome(PoweredUp(s, accepted), [])
    case PowerOff(ended) => Outcome(PowerDown(s, ended), [])
    case Scan(channels, offload, accepted, thread) => Outcome(StartScan(s, channels, offload, accepted, thread), [])
    case ScanDone => Outcome(FinishScan(s), [])
    case ManualScanEnds => Outcome(EndManual(FinishScan(s)), [])
    case ManualHop(home) => Outcome(Hop(s, home), [])
    case Connect(_, _, _, _, _) => Outcome(Connecting(s, e), [])
    case ConnectFires => Outcome(Fire(s), [])
    case AuthResponse(addr3, body) => Outcome(OnAuth(s, addr3, body), [])
    case AssocResponse(addr3, body, memory) => Outcome(OnAssoc(s, addr3, body, memory), [])
    case Deauth(addr1, addr2, addr3) => Outcome(OnDeauth(s, addr1, addr2, addr3), [])
    case EapolData(data, snonce, luck) => if s.state == Handshaking then HandleEapol(s, data, snonce, luck) else Outcome(s, [])
    case Disconnect => Outcome(if s.state == Idle then s else Disconnected(s), [])
    case Timer => Outcome(OnTimer(s), [])
    case Output(da, etherType, payload, memory, copied) =>
      if MaySend(s) then TxData(s, da, etherType, payload, memory, copied) else Outcome(s, [])
  }

  // Frames off the air.

  predicate MayReceive(s: Sta) {
    s.state == Connected || s.state == Handshaking || (s.state == Scanning && s.scanReturn == Connected)
  }

  /** The event a received frame is; beacons and block-ack frames are none of this machine's. */
  function Received(s: Sta, frame: bytes, snonce: Nonce, luck: Luck, memory: bool): Option<Event>
    requires |frame| >= 24
  {
    hide Deliver, Join;
    var fc := Join(frame[0], frame[1]);
    if fc & 0x000c == 0 then
      var addr3: Address := frame[16..22];
      if fc & 0x00f0 == 0x00b0 then Some(AuthResponse(addr3, frame[24..]))
      else if fc & 0x00f0 == 0x0010 || fc & 0x00f0 == 0x0030 then Some(AssocResponse(addr3, frame[24..], memory))
      else if fc & 0x00f0 == 0x00a0 || fc & 0x00f0 == 0x00c0 then Some(Deauth(frame[4..10], frame[10..16], addr3))
      else None
    else if fc & 0x000c == 0x0008 && MayReceive(s) then
      match Deliver(frame, s.state == Handshaking)
      case Eapol(message) => Some(EapolData(message, snonce, luck))
      case _ => None
    else None
  }

  /** The Ethernet frames it hands to the network stack. */
  function Upward(s: Sta, frame: bytes): seq<Ethernet>
    requires |frame| >= 24
  {
    hide Deliver, Join;
    if Join(frame[0], frame[1]) & 0x000c != 0x0008 || !MayReceive(s) then []
    else
      match Deliver(frame, s.state == Handshaking)
      case Frames(xs) => xs
      case _ => []
  }

  /** What a received frame does. */
  function Receive(s: Sta, frame: bytes, snonce: Nonce, luck: Luck, memory: bool): Outcome
    requires |frame| >= 24
  {
    hide Received, Step;
    match Received(s, frame, snonce, luck, memory)
    case None => Outcome(s, [])
    case Some(e) => Step(s, e)
  }
}
