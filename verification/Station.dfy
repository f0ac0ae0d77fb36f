/** The station: its fields, and one method for everything that happens to it. */
module Station {
  import opened Bytes
  import opened Options
  import opened Amsdu
  import opened DataFrame
  import opened KeyDerivation
  import opened Eapol
  import opened StationSpec
  import StationSafety
  import KeyWrap
  import Kde

  /** A frame handed to the driver, and the key the driver is to encrypt it under. */
  datatype Tx = Tx(frame: bytes, key: Option<KeyConf>)

  type Pmk = s: bytes | |s| == 32 witness Zeros(32)
  type Passphrase = s: bytes | |s| <= 63 && 0 !in s

  function Wire(xs: seq<Sent>): seq<Tx> {
    hide Encapsulate;
    seq(|xs|, i requires 0 <= i < |xs| => Tx(Encapsulate(xs[i].content), xs[i].key))
  }

  method NextPn(was: Pn) returns (next: Pn)
    ensures next == Incremented(was)
  {
    hide Incremented;
    var pn := new bv8[6](i requires 0 <= i < 6 => was[i]);
    assert pn[..] == was;
    IncrementPn(pn);
    next := pn[..];
  }

  lemma WireNothing()
    ensures Wire([]) == []
  {
  }

  lemma WireOne(x: Sent)
    ensures Wire([x]) == [Tx(Encapsulate(x.content), x.key)]
  {
    hide Encapsulate;
  }

  lemma EthernetParts(da: Address, sa: Address, etherType: EtherType, payload: bytes)
    ensures var b := da + sa + etherType + payload; |b| >= 14 && b[..6] == da && b[12..14] == etherType && b[14..] == payload
  {
  }

  lemma NoGtk()
    ensures Kde.GtkOf([]) == None
  {
  }

  /** Unwraps the key data if it is wrapped and looks for the group key in it. */
  method ReadKeyData(kek: bytes, info: bv16, keyData: bytes) returns (ok: bool, gtk: Option<Kde.Gtk>)
    requires |kek| == 16 && |keyData| < 0x1_0000
    ensures ok <==> ClearKeyData(kek, info, keyData).Some?
    ensures ok ==> gtk == Kde.GtkOf(ClearKeyData(kek, info, keyData).value)
  {
    hide KeyWrap.UnwrapResult, Kde.GtkOf;
    NoGtk();
    if |keyData| == 0 {
      return true, None;
    }
    var clear := keyData;
    if info & 0x1000 != 0 {
      var unwrapped := KeyWrap.Unwrap(kek, keyData);
      if unwrapped.None? {
        return false, None;
      }
      KeyWrap.UnwrapSize(kek, keyData);
      clear := unwrapped.value;
    }
    gtk := Kde.ExtractGtk(clear);
    ok := true;
  }

  lemma {:induction false} CStringHasNoZero(b: bytes)
    ensures 0 !in CString(b)
  {
    if |b| > 0 && b[0] != 0 {
      CStringHasNoZero(b[1..]);
    }
  }

  lemma EapolOnlyInHandshake(frame: bytes, handshaking: bool)
    requires |frame| >= 24 && Deliver(frame, handshaking).Eapol?
    ensures handshaking
  {
    hide Join, HeaderLength, IsQosData, IsProtected, Split, LlcOffset, IsSnap;
  }

  /** Marked as protected on the air, to be encrypted under the temporal key. */
  predicate Secured(s: Sta, x: Tx) {
    |x.frame| >= 2 && IsProtected(Join(x.frame[0], x.frame[1])) && x.key == StationSafety.TemporalKey(s)
  }

  lemma OutputIs(s: Sta, da: Address, etherType: EtherType, payload: bytes, memory: bool, copied: bool)
    ensures Step(s, Output(da, etherType, payload, memory, copied))
         == if MaySend(s) then TxData(s, da, etherType, payload, memory, copied) else Outcome(s, [])
  {
    hide TxData;
  }

  lemma SafeOutput(s: Sta, da: Address, etherType: EtherType, payload: bytes, memory: bool, copied: bool)
    requires StationSafety.Safe(s)
    ensures var o := Step(s, Output(da, etherType, payload, memory, copied));
      && StationSafety.Safe(o.sta)
      && (s.wpa2 && etherType != PAE ==> forall x :: x in Wire(o.sent) ==> Secured(s, x))
  {
    hide Step, Encapsulate, LittleEndian, StationSafety.At;
    var e := Output(da, etherType, payload, memory, copied);
    StationSafety.StepKeeps(s, e);
    var xs := Step(s, e).sent;
    OutputTypes(s, da, etherType, payload, memory, copied);
    forall x | x in xs
      ensures s.wpa2 && etherType != PAE ==> Secured(s, Tx(Encapsulate(x.content), x.key))
    {
      StationSafety.ProtectedBit(x.content);
    }
  }

  lemma OutputTypes(s: Sta, da: Address, etherType: EtherType, payload: bytes, memory: bool, copied: bool)
    ensures forall x :: x in Step(s, Output(da, etherType, payload, memory, copied)).sent ==> x.content.etherType == etherType
  {
    hide Counted, NextSeqCtrl;
  }

  lemma SafeReceive(s: Sta, frame: bytes, random: Nonce, luck: Luck, memory: bool)
    requires |frame| >= 24
    ensures StationSafety.Safe(s) ==> StationSafety.Safe(StationSpec.Receive(s, frame, random, luck, memory).sta)
  {
    hide Step, Received, StationSafety.Safe, StationSafety.At;
    var e := Received(s, frame, random, luck, memory);
    if StationSafety.Safe(s) && e.Some? {
      StationSafety.StepKeeps(s, e.value);
    }
  }

  /** A frame that is neither management nor data does nothing, and a management frame is not handed up. */
  lemma NeitherKind(s: Sta, frame: bytes, random: Nonce, luck: Luck, memory: bool)
    requires |frame| >= 24
    ensures var kind := Join(frame[0], frame[1]) & 0x000c;
      && (kind != 0x0008 ==> Upward(s, frame) == [])
      && (kind != 0 && kind != 0x0008 ==> StationSpec.Receive(s, frame, random, luck, memory) == Outcome(s, []))
  {
    hide Join, Step, Deliver;
  }

  class Station {
    var state: State
    var scanReturnState: State
    var attached: bool
    var powered: bool
    var peer: bool
    var macAddr: Address
    var wpa2: bool
    var targetBss: Bss
    var password: Passphrase
    var pmk: Pmk
    var ptk: Ptk
    var ptkConf: Option<KeyConf>
    var gtkConf: Option<KeyConf>
    var ccmpTxPn: Pn
    var anonce: Nonce
    var snonce: Nonce
    var replayCtr: Counter
    var linkActive: bool
    var connectPending: nat
    var manualScanChannelCount: nat
    var manualScanOnHomeChannel: bool
    var dataSeq: nat
    var txSeq: nat
    ghost var installs: nat
    ghost var sent: nat
    ghost var derived: bool

    ghost function View(): Sta
      reads this
    {
      Sta(state, scanReturnState, attached, powered, peer, macAddr, wpa2, targetBss, password, pmk, ptk, ptkConf, gtkConf,
          ccmpTxPn, anonce, snonce, replayCtr, linkActive, connectPending, manualScanChannelCount, manualScanOnHomeChannel,
          dataSeq, txSeq, installs, sent, derived)
    }

    /** The invariant of the connection, which every event keeps. */
    ghost predicate Safe()
      reads this
    {
      StationSafety.Safe(View())
    }

    constructor (mac: Address, bss: Bss)
      ensures StationSafety.Initial(View())
    {
      state, scanReturnState, attached, powered, peer := Idle, Idle, false, false, false;
      macAddr, wpa2, targetBss, password, pmk, ptk := mac, false, bss, [], Zeros(32), NoPtk();
      ptkConf, gtkConf, ccmpTxPn := None, None, NoPn();
      anonce, snonce, replayCtr := Zeros(32), Zeros(32), Zeros(8);
      linkActive, connectPending, manualScanChannelCount, manualScanOnHomeChannel := false, 0, 0, false;
      dataSeq, txSeq, installs, sent, derived := 0, 0, 0, 0, false;
    }

    /** Counts one more frame, and says what goes into its sequence-control field. */
    method Count(protected: bool) returns (seqCtrl: nat)
      modifies `dataSeq, `txSeq, `ccmpTxPn, `sent
      ensures View() == Counted(old(View()), protected) && seqCtrl == NextSeqCtrl(old(View()))
    {
      hide Counted, NextSeqCtrl;
      StationSafety.CountedKeeps(View(), protected);
      seqCtrl := Advance(protected);
    }

    method Advance(protected: bool) returns (seqCtrl: nat)
      modifies `dataSeq, `txSeq, `ccmpTxPn, `sent
      ensures var t := Counted(old(View()), protected);
        dataSeq == t.dataSeq && txSeq == t.txSeq && ccmpTxPn == t.pn && sent == t.sent && seqCtrl == NextSeqCtrl(old(View()))
    {
      hide SeqCtrl, Incremented;
      if targetBss.cipher != Tkip {
        seqCtrl := SeqCtrl(dataSeq);
        dataSeq := (dataSeq + 1) % 0x1_0000;
      } else {
        seqCtrl := SeqCtrl(txSeq);
        txSeq := (txSeq + 1) % 0x1_0000;
      }
      if protected {
        ccmpTxPn := NextPn(ccmpTxPn);
        sent := sent + 1;
      }
    }

    method ClearKeys()
      modifies this
      ensures View() == StationSpec.ClearKeys(old(View()))
    {
      hide View, NoPtk, NoPn;
      DropKeys();
      ForgetPtk();
      ForgetPn();
    }

    method DropKeys()
      modifies `ptkConf, `gtkConf
      ensures View() == old(View()).(pairwise := None, group := None)
    {
      ptkConf, gtkConf := None, None;
    }

    method ForgetPtk()
      modifies `ptk, `derived
      ensures View() == old(View()).(ptk := NoPtk(), derived := false)
    {
      hide NoPtk;
      ptk, derived := NoPtk(), false;
    }

    method ForgetPn()
      modifies `ccmpTxPn, `sent
      ensures View() == old(View()).(pn := NoPn(), sent := 0)
    {
      hide NoPn;
      ccmpTxPn, sent := NoPn(), 0;
    }

    method ReleaseSta()
      modifies this
      ensures View() == ReleasePeer(old(View()))
    {
      if !peer {
        return;
      }
      peer, dataSeq := false, 0;
    }

    /** Puts a key into a slot: the old key goes first, and stays out if the new one cannot be had. */
    method InstallKey(pairwise: bool, index: bv8, cipher: Cipher, key: bytes, memory: bool, accepted: bool) returns (ok: bool)
      modifies `ptkConf, `gtkConf, `installs, `sent, `ccmpTxPn
      ensures (View(), ok) == InstallInto(old(View()), pairwise, index, cipher, key, memory, accepted)
    {
      hide InstallInto;
      StationSafety.OnlyKeys(View(), pairwise, index, cipher, key, memory, accepted);
      ok := SetKey(pairwise, index, cipher, key, memory, accepted);
    }

    method SetKey(pairwise: bool, index: bv8, cipher: Cipher, key: bytes, memory: bool, accepted: bool) returns (ok: bool)
      modifies `ptkConf, `gtkConf, `installs, `sent, `ccmpTxPn
      ensures var t := InstallInto(old(View()), pairwise, index, cipher, key, memory, accepted);
        && ok == t.1 && ptkConf == t.0.pairwise && gtkConf == t.0.group
        && installs == t.0.installs && sent == t.0.sent && ccmpTxPn == t.0.pn
    {
      hide NoPtk, NoPn;
      if !attached || |key| == 0 || |key| > 32 {
        return false;
      }
      if cipher != Ccmp && cipher != Tkip {
        return false;
      }
      if (cipher == Ccmp && |key| != 16) || (cipher == Tkip && |key| != 32) {
        return false;
      }
      if pairwise {
        ptkConf := None;
      } else {
        gtkConf := None;
      }
      if !memory || !accepted {
        return false;
      }
      if pairwise {
        ptkConf := Some(KeyConf(cipher, index, key));
        installs, sent, ccmpTxPn := installs + 1, 0, NoPn();
      } else {
        gtkConf := Some(KeyConf(cipher, index, key));
      }
      return true;
    }

    /** Encapsulates an Ethernet frame and hands it to the driver. */
    method TxDataFrame(frame: bytes, memory: bool, copied: bool) returns (ok: bool, tx: seq<Tx>)
      modifies this
      ensures |frame| < 14 ==> View() == old(View()) && tx == []
      ensures |frame| >= 14 ==>
        var o := TxData(old(View()), frame[..6], frame[12..14], frame[14..], memory, copied); View() == o.sta && tx == Wire(o.sent)
    {
      hide Wire, Counted, NextSeqCtrl, Encapsulate;
      WireNothing();
      if !attached || !peer || |frame| < 14 || |frame| > 2048 || !memory {
        return false, [];
      }
      var etherType: EtherType := frame[12..14];
      var payload := frame[14..];
      var protected := wpa2 && ptkConf.Some? && etherType != PAE;
      var seqCtrl := Count(protected);
      if |payload| > 0 && !copied {
        return false, [];
      }
      var key := if protected then ptkConf else None;
      var index := if protected then Some(ptkConf.value.index) else None;
      var content := Content(targetBss.cipher != Tkip, index, ccmpTxPn, targetBss.bssid, macAddr, frame[..6], seqCtrl, 0, etherType, payload);
      WireOne(Sent(content, key, installs, sent));
      var skb := BuildFrame(content);
      return true, [Tx(skb.mem[skb.data..skb.tail], key)];
    }

    method SendEapolKey(step: nat, luck: Luck) returns (tx: seq<Tx>)
      modifies this
      ensures var o := SendReply(old(View()), step, luck); View() == o.sta && tx == Wire(o.sent)
    {
      hide TxData, Signed, Reply, Wire;
      var eapol := BuildReply(step, replayCtr, snonce, targetBss.groupCipher == Tkip, ptk[..16]);
      EthernetParts(targetBss.bssid, macAddr, PAE, eapol);
      var ok;
      ok, tx := TxDataFrame(targetBss.bssid + macAddr + PAE + eapol, luck.txMemory, luck.txCopied);
    }

    /** Message 1: take the nonces, derive the key, answer. */
    method HandleMessage1(data: bytes, random: Nonce, luck: Luck) returns (tx: seq<Tx>)
      requires |data| >= 99
      modifies this
      ensures var o := Message1(old(View()), data, random, luck); View() == o.sta && tx == Wire(o.sent)
    {
      hide PtkOf, SendReply, Wire;
      TakeNonces(data[17..49], random);
      var key := DerivePtk(pmk, anonce, snonce, macAddr, targetBss.bssid);
      TakeKey(key, data[9..17]);
      tx := SendEapolKey(2, luck);
    }

    method TakeNonces(authenticator: Nonce, random: Nonce)
      modifies `anonce, `snonce
      ensures View() == old(View()).(anonce := authenticator, snonce := random)
    {
      anonce, snonce := authenticator, random;
    }

    method TakeKey(key: Ptk, counter: Counter)
      modifies `ptk, `replayCtr, `derived
      ensures View() == old(View()).(ptk := key, counter := counter, derived := true)
    {
      replayCtr := counter;
      SetPtk(key);
    }

    method SetPtk(key: Ptk)
      modifies `ptk, `derived
      ensures View() == old(View()).(ptk := key, derived := true)
    {
      ptk, derived := key, true;
    }

    /** The end of message 3: both keys in, answer, link up. */
    method FinishHandshake(gtk: Option<Kde.Gtk>, luck: Luck) returns (tx: seq<Tx>)
      modifies this
      ensures var o := Install(old(View()), gtk, luck); View() == o.sta && tx == Wire(o.sent)
    {
      hide InstallPairwise, Complete, Wire;
      WireNothing();
      var ok := InstallKey(true, 0, Ccmp, ptk[32..48], luck.pairwiseMemory, luck.pairwiseSet);
      if !ok {
        return [];
      }
      tx := FinishGroup(gtk, luck);
    }

    method FinishGroup(gtk: Option<Kde.Gtk>, luck: Luck) returns (tx: seq<Tx>)
      modifies this
      ensures var o := Complete(old(View()), gtk, luck); View() == o.sta && tx == Wire(o.sent)
    {
      hide InstallGroup, LastReply, Wire, View;
      WireNothing();
      if gtk.None? || |gtk.value.key| == 0 {
        tx := FinishReply(luck);
      } else {
        var groupCipher := ChooseGroupCipher();
        var ok := InstallKey(false, gtk.value.index, groupCipher, gtk.value.key, luck.groupMemory, luck.groupSet);
        if ok {
          tx := FinishReply(luck);
        } else {
          tx := [];
        }
      }
    }

    method ChooseGroupCipher() returns (cipher: Cipher)
      ensures cipher == GroupCipher(View())
    {
      cipher := if targetBss.groupCipher == Tkip then Tkip else Ccmp;
    }

    method FinishReply(luck: Luck) returns (tx: seq<Tx>)
      modifies this
      ensures var o := LastReply(old(View()), luck); View() == o.sta && tx == Wire(o.sent)
    {
      hide SendReply, Wire;
      tx := SendEapolKey(4, luck);
      LinkUp();
    }

    method LinkUp()
      modifies `state, `linkActive
      ensures View() == old(View()).(state := Connected, link := true)
    {
      state, linkActive := Connected, true;
    }

    /** Message 3: check the MIC, read the key data, install. */
    method HandleMessage3(data: bytes, eapolLen: nat, luck: Luck) returns (tx: seq<Tx>)
      requires 99 <= eapolLen <= |data| && eapolLen < 0x1_0010
      modifies this
      ensures var o := Message3(old(View()), data, eapolLen, luck); View() == o.sta && tx == Wire(o.sent)
    {
      hide MicOk, ClearKeyData, Kde.GtkOf, Number, Install, Wire, Info;
      WireNothing();
      var micOk := EapolMicOk(ptk[..16], data[..eapolLen], luck.micMemory);
      if !micOk {
        return [];
      }
      var keyDataLen := Number(data[97], data[98]);
      if 99 + keyDataLen > eapolLen {
        return [];
      }
      var ok, gtk := ReadKeyData(ptk[16..32], Info(data), data[99..99 + keyDataLen]);
      if !ok {
        return [];
      }
      replayCtr := data[9..17];
      tx := FinishHandshake(gtk, luck);
    }

    method HandleEapol(data: bytes, random: Nonce, luck: Luck) returns (tx: seq<Tx>)
      modifies this
      ensures var o := StationSpec.HandleEapol(old(View()), data, random, luck); View() == o.sta && tx == Wire(o.sent)
      ensures old(Safe()) && old(View()).state == Handshaking ==> Safe()
    {
      hide Message1, Message3, Number, Wire, StationSafety.Safe, StationSafety.At;
      WireNothing();
      if StationSafety.Safe(View()) && state == Handshaking {
        StationSafety.EapolKeeps(View(), data, random, luck);
      }
      if |data| < 99 || data[1] != 3 {
        return [];
      }
      NumberBound(data[2], data[3]);
      var eapolLen := 4 + Number(data[2], data[3]);
      if eapolLen > |data| || eapolLen < 99 {
        return [];
      }
      var info := Info(data);
      if info & 0x0088 == 0x0088 && info & 0x0100 == 0 {
        tx := HandleMessage1(data, random, luck);
      } else if info & 0x01c8 == 0x01c8 {
        tx := HandleMessage3(data, eapolLen, luck);
      } else {
        tx := [];
      }
    }

    method LinkDown()
      modifies `linkActive
      ensures View() == old(View()).(link := false)
    {
      linkActive := false;
    }

    // Bringing the device up and down.

    /** Probing, finding the hardware and its interface, and starting it may each fail. */
    method Start(probed: bool, present: bool, started: bool) returns (ok: bool)
      modifies this
      ensures View() == Started(old(View()), probed, present, started) && ok == probed
      ensures old(Safe()) ==> Safe()
    {
      hide StationSafety.Safe, StationSafety.At;
      if StationSafety.Safe(View()) {
        StationSafety.StartKeeps(View(), probed, present, started);
      }
      if !probed {
        return false;
      }
      Attach(present, started);
      Rest();
      ok := true;
    }

    method Attach(present: bool, started: bool)
      modifies `attached, `powered
      ensures View() == old(View()).(attached := present, powered := old(View()).powered || started)
    {
      attached := present;
      if started {
        powered := true;
      }
    }

    /** Back to the idle state, with no scan to return from. */
    method Rest()
      modifies `state, `scanReturnState
      ensures View() == Rested(old(View()))
    {
      state, scanReturnState := Idle, Idle;
    }

    method Stop()
      modifies this
      ensures View() == Stopped(old(View()))
      ensures old(Safe()) ==> Safe()
    {
      hide StationSpec.Leave, View, StationSafety.Safe, StationSafety.At;
      if StationSafety.Safe(View()) {
        StationSafety.StoppedKeeps(View());
      }
      var joined := UpAndPowered();
      StationSafety.LeaveOnly(View(), joined);
      Leave(joined);
      Detach();
      Rest();
    }

    method UpAndPowered() returns (up: bool)
      ensures var s := View(); up == ((s.state == Connected || (s.state == Scanning && s.scanReturn == Connected)) && s.powered)
    {
      up := (state == Connected || (state == Scanning && scanReturnState == Connected)) && powered;
    }

    method Leave(joined: bool)
      modifies this
      ensures View() == StationSpec.Leave(old(View()), joined)
    {
      hide Disconnected, StationSpec.ClearKeys, ReleasePeer;
      if joined {
        DoDisconnect();
      } else {
        ClearKeys();
        ReleaseSta();
      }
    }

    method Detach()
      modifies `attached, `powered
      ensures View() == old(View()).(attached := false, powered := if old(View()).attached then false else old(View()).powered)
    {
      if attached {
        powered := false;
      }
      attached := false;
    }

    method DoDisconnect()
      modifies this
      ensures View() == Disconnected(old(View()))
      ensures old(Safe()) ==> Safe()
    {
      hide StationSpec.ClearKeys, ReleasePeer, StationSafety.Safe, StationSafety.At;
      if StationSafety.Safe(View()) {
        StationSafety.DisconnectedKeeps(View());
      }
      StationSafety.DropOnly(View());
      if attached {
        ClearKeys();
        ReleaseSta();
        Rest();
        LinkDown();
      } else {
        Rest();
      }
    }

    method CmdDisconnect()
      modifies this
      ensures View() == Step(old(View()), Event.Disconnect).sta
      ensures old(Safe()) ==> Safe()
    {
      hide Disconnected, StationSafety.Safe, StationSafety.At;
      if StationSafety.Safe(View()) {
        StationSafety.DisconnectedKeeps(View());
      }
      if state == Idle {
        return;
      }
      DoDisconnect();
    }

    method CmdPowerOn(accepted: bool) returns (ok: bool)
      modifies this
      ensures View() == PoweredUp(old(View()), accepted)
      ensures ok == (old(View()).powered || (old(View()).attached && accepted))
      ensures old(Safe()) ==> Safe()
    {
      hide StationSafety.Safe, StationSafety.At, View, Settled;
      if StationSafety.Safe(View()) {
        StationSafety.PowerUpKeeps(View(), accepted);
      }
      ok := PowerOn(accepted);
      if ok {
        Settle();
      }
    }

    method PowerOn(accepted: bool) returns (ok: bool)
      modifies `powered
      ensures ok == (old(View()).powered || (old(View()).attached && accepted))
      ensures View() == if ok then old(View()).(powered := true) else old(View())
    {
      if powered {
        return true;
      }
      if !attached || !accepted {
        return false;
      }
      powered := true;
      return true;
    }

    method Settle()
      modifies `state
      ensures View() == Settled(old(View()))
    {
      if state == Disconnecting {
        state := Idle;
      }
    }

    method CmdPowerOff(ended: bool)
      modifies this
      ensures View() == PowerDown(old(View()), ended)
      ensures old(Safe()) ==> Safe()
    {
      hide AbortScan, StationSpec.Leave, View, StationSafety.Safe, StationSafety.At;
      if StationSafety.Safe(View()) {
        StationSafety.PowerDownKeeps(View(), ended);
      }
      var _ := AbortActiveScan(ended);
      var joined := Joined();
      Leave(joined);
      PowerOff();
      Rest();
      LinkDown();
    }

    method Joined() returns (joined: bool)
      ensures joined == (View().state in {Connected, Authenticating, Associating, Handshaking})
    {
      joined := state == Connected || state == Authenticating || state == Associating || state == Handshaking;
    }

    method PowerOff()
      modifies `powered
      ensures View() == old(View()).(powered := false)
    {
      if !powered {
        return;
      }
      powered := false;
    }

    // Scanning.

    method FinishState()
      modifies `state, `scanReturnState
      ensures View() == Resume(old(View()))
    {
      state := if scanReturnState == Idle then Idle else scanReturnState;
      scanReturnState := Idle;
    }

    method ScanDone()
      modifies this
      ensures View() == FinishScan(old(View()))
      ensures old(Safe()) ==> Safe()
    {
      hide Resume, StationSafety.Safe, StationSafety.At;
      if StationSafety.Safe(View()) {
        StationSafety.ScanKeeps(View(), false);
      }
      if state == Scanning {
        FinishState();
        manualScanOnHomeChannel := false;
      }
    }

    /** Asks a scan to end and waits; ended says whether it does while waiting. */
    method AbortActiveScan(ended: bool) returns (ok: bool)
      modifies this
      ensures View() == AbortScan(old(View()), ended)
      ensures ok <==> state != Scanning
      ensures old(Safe()) ==> Safe()
    {
      hide Resume, FinishScan, StationSafety.Safe, StationSafety.At;
      if StationSafety.Safe(View()) {
        StationSafety.ScanKeeps(View(), ended);
      }
      if state != Scanning {
        return true;
      }
      if ended {
        ScanDone();
      } else if manualScanChannelCount > 0 {
        return false;
      } else {
        FinishState();
        EndManualScan();
      }
      ok := state != Scanning;
    }

    method EndManualScan()
      modifies `manualScanChannelCount, `manualScanOnHomeChannel
      ensures View() == EndManual(old(View()))
    {
      manualScanOnHomeChannel, manualScanChannelCount := false, 0;
    }

    /** The thread that scans channel by channel has gone through them all, or was told to stop. */
    method ManualScanEnds()
      modifies this
      ensures View() == Step(old(View()), Event.ManualScanEnds).sta
      ensures old(Safe()) ==> Safe()
    {
      hide FinishScan, EndManual, StationSafety.Safe, StationSafety.At, View;
      ScanDone();
      if StationSafety.Safe(View()) {
        StationSafety.EndManualKeeps(View());
      }
      EndManualScan();
    }

    /** Starts a scan over the enabled channels: by the firmware if it can and will, else channel by channel. */
    method CmdScan(channels: nat, offload: bool, accepted: bool, thread: bool) returns (ok: bool)
      modifies this
      ensures View() == StartScan(old(View()), channels, offload, accepted, thread)
      ensures ok <==> old(View()).state == Idle && View().state == Scanning
      ensures old(Safe()) ==> Safe()
    {
      hide StationSafety.Safe, StationSafety.At, View, Scanned;
      if StationSafety.Safe(View()) {
        StationSafety.StartScanKeeps(View(), channels, offload, accepted, thread);
      }
      var able := MayScan();
      if !able {
        return false;
      }
      EnterScan();
      ok := ChooseScan(channels, offload, accepted, thread);
    }

    method ChooseScan(channels: nat, offload: bool, accepted: bool, thread: bool) returns (ok: bool)
      requires View().state == Scanning
      modifies this
      ensures View() == Scanned(old(View()), channels, offload, accepted, thread)
      ensures ok <==> View().state == Scanning
    {
      hide View;
      if channels == 0 {
        Rest();
        return false;
      }
      if offload && accepted {
        return true;
      }
      if thread {
        EnterManualScan(channels);
        return true;
      }
      Rest();
      return false;
    }

    method MayScan() returns (able: bool)
      ensures able == (View().state == Idle && View().attached)
    {
      able := state == Idle && attached;
    }

    method EnterScan()
      modifies `state, `scanReturnState
      ensures View() == old(View()).(state := Scanning, scanReturn := if old(View()).state == Connected then Connected else Idle)
    {
      scanReturnState := if state == Connected then state else Idle;
      state := Scanning;
    }

    method EnterManualScan(channels: nat)
      modifies `manualScanChannelCount, `manualScanOnHomeChannel
      ensures View() == old(View()).(manual := channels, onHome := false)
    {
      manualScanChannelCount, manualScanOnHomeChannel := channels, false;
    }

    method ManualHop(home: bool)
      modifies this
      ensures View() == Hop(old(View()), home)
      ensures old(Safe()) ==> Safe()
    {
      hide StationSafety.Safe, StationSafety.At, View, Hop;
      if StationSafety.Safe(View()) {
        StationSafety.HopKeeps(View(), home);
      }
      SetOnHome(home);
    }

    method SetOnHome(home: bool)
      modifies `manualScanOnHomeChannel
      ensures View() == Hop(old(View()), home)
    {
      manualScanOnHomeChannel := home && scanReturnState == Connected;
    }

    // Connecting.

    /** Connects to the network found, if any; the password is a C string. */
    method CmdConnect(ssidGiven: bool, found: Option<Bss>, secret: bytes, ended: bool, thread: bool) returns (ok: bool)
      modifies this
      ensures View() == Connecting(old(View()), Connect(ssidGiven, found, secret, ended, thread))
      ensures old(Safe()) ==> Safe()
    {
      hide AbortScan, Aim, StationSpec.ClearKeys, ReleasePeer, StationSafety.Safe, StationSafety.At;
      if StationSafety.Safe(View()) {
        StationSafety.ConnectKeeps(View(), Connect(ssidGiven, found, secret, ended, thread));
      }
      var _ := AbortActiveScan(ended);
      if state != Idle || !ssidGiven {
        return false;
      }
      ClearKeys();
      ReleaseSta();
      if found.None? {
        return false;
      }
      TakeAim(found.value, secret, thread);
      ok := true;
    }

    method TakeAim(target: Bss, secret: bytes, thread: bool)
      modifies `targetBss, `password, `wpa2, `state, `connectPending
      ensures View() == Aim(old(View()), target, secret, thread)
    {
      hide CString, View;
      CStringHasNoZero(secret);
      TakeTarget(target, Cut(CString(secret), 63));
      EnterAuthentication(target.cipher == Ccmp);
      EnterThread(thread);
    }

    method TakeTarget(target: Bss, secret: Passphrase)
      modifies `targetBss, `password
      ensures View() == old(View()).(target := target, password := secret)
    {
      targetBss, password := target, secret;
    }

    method EnterAuthentication(secure: bool)
      modifies `wpa2, `state
      ensures View() == old(View()).(wpa2 := secure, state := Authenticating)
    {
      wpa2, state := secure, Authenticating;
    }

    method EnterThread(thread: bool)
      modifies `connectPending
      ensures View() == old(View()).(pending := if thread then old(View()).pending + 1 else old(View()).pending)
    {
      if thread {
        connectPending := connectPending + 1;
      }
    }

    /** Sends the authentication request. It does not ask what state the station is in. */
    method DoAuthenticate()
      modifies `state
      ensures View() == Authenticate(old(View()))
    {
      if !attached {
        return;
      }
      state := Authenticating;
    }

    method ConnectThreadRuns()
      modifies `state, `connectPending
      ensures View() == Fire(old(View()))
      ensures old(Safe()) ==> Safe()
    {
      hide StationSafety.Safe, StationSafety.At;
      if StationSafety.Safe(View()) {
        StationSafety.FireKeeps(View());
      }
      if connectPending > 0 {
        connectPending := connectPending - 1;
        DoAuthenticate();
      }
    }

    method DoAssociate()
      modifies `state
      ensures View() == Associate(old(View()))
    {
      if !attached {
        return;
      }
      state := Associating;
    }

    // Frames from the air.

    method ProcessAuth(addr3: Address, body: bytes)
      modifies `state
      ensures View() == OnAuth(old(View()), addr3, body)
      ensures old(Safe()) ==> Safe()
    {
      hide Number, Associate, StationSafety.Safe, StationSafety.At;
      if StationSafety.Safe(View()) {
        StationSafety.AuthKeeps(View(), addr3, body);
      }
      if state != Authenticating || addr3 != targetBss.bssid {
        return;
      }
      if |body| >= 6 {
        var status := Number(body[5], body[4]);
        if status == 0 {
          DoAssociate();
        } else {
          state := Idle;
        }
      } else {
        DoAssociate();
      }
    }

    method ProcessAssocResponse(addr3: Address, body: bytes, memory: bool)
      modifies this
      ensures View() == OnAssoc(old(View()), addr3, body, memory)
      ensures old(Safe()) ==> Safe()
    {
      hide Number, StationSpec.Associated, StationSafety.Safe, StationSafety.At;
      if StationSafety.Safe(View()) {
        StationSafety.AssocKeeps(View(), addr3, body, memory);
      }
      if state != Associating || addr3 != targetBss.bssid {
        return;
      }
      if |body| < 6 || Number(body[3], body[2]) != 0 {
        state := Idle;
        return;
      }
      Associated(memory);
    }

    method Associated(memory: bool)
      modifies `peer, `state, `pmk, `linkActive
      ensures View() == StationSpec.Associated(old(View()), memory)
    {
      hide Pbkdf2;
      if !peer && memory {
        peer := true;
      }
      if wpa2 {
        EnterHandshake();
      } else {
        LinkUp();
      }
    }

    method EnterHandshake()
      modifies `state, `pmk
      ensures var s := old(View()); View() == s.(state := Handshaking, pmk := Pbkdf2(s.password, Cut(s.target.ssid, 120), 4096))
    {
      hide Pbkdf2, CString;
      CStringIs(password + [0], |password|);
      var key := DerivePmk(password + [0], targetBss.ssid);
      state, pmk := Handshaking, key;
    }

    method ProcessDeauth(addr1: Address, addr2: Address, addr3: Address)
      modifies this
      ensures View() == OnDeauth(old(View()), addr1, addr2, addr3)
      ensures old(Safe()) ==> Safe()
    {
      hide StationSpec.ClearKeys, View, EndsConnection, StationSafety.Safe, StationSafety.At;
      if StationSafety.Safe(View()) {
        StationSafety.DeauthKeeps(View(), addr1, addr2, addr3);
      }
      var ends := Ends(addr1, addr2, addr3);
      if ends {
        ClearKeys();
        Rest();
        LinkDown();
      }
    }

    method Ends(addr1: Address, addr2: Address, addr3: Address) returns (ends: bool)
      ensures ends == EndsConnection(View(), addr1, addr2, addr3)
    {
      if !(state == Connected || state == Handshaking || (state == Scanning && scanReturnState == Connected)) {
        return false;
      }
      var fromTarget := addr3 == targetBss.bssid || addr2 == targetBss.bssid;
      var addressedToUs := addr1 == macAddr || addr1 == BROADCAST;
      ends := fromTarget && addressedToUs;
    }

    method OnTimer()
      modifies this
      ensures View() == StationSpec.OnTimer(old(View()))
      ensures old(Safe()) ==> Safe()
    {
      hide Resume, Authenticate, Disconnected, StationSafety.Safe, StationSafety.At;
      if StationSafety.Safe(View()) {
        StationSafety.TimerKeeps(View());
      }
      if state == Scanning {
        if manualScanChannelCount == 0 {
          FinishState();
        }
      } else if state == Authenticating {
        DoAuthenticate();
      } else if state == Associating {
        state := Idle;
      } else if state == Handshaking {
        DoDisconnect();
      }
    }

    /** A packet from the network stack. From a WPA2 station anything but EAPOL leaves marked as protected, under the
        temporal key of its current PTK. */
    method OutputPacket(frame: bytes, memory: bool, copied: bool) returns (ok: bool, tx: seq<Tx>)
      modifies this
      ensures |frame| < 14 ==> View() == old(View()) && tx == []
      ensures |frame| >= 14 ==>
        var o := Step(old(View()), Output(frame[..6], frame[12..14], frame[14..], memory, copied)); View() == o.sta && tx == Wire(o.sent)
      ensures old(Safe()) ==> Safe()
      ensures old(Safe()) && old(View()).wpa2 && |frame| >= 14 && frame[12..14] != PAE ==>
        forall x :: x in tx ==> Secured(old(View()), x)
    {
      hide TxData, Wire, StationSafety.Safe, StationSafety.At, View, Secured, Step;
      WireNothing();
      if StationSafety.Safe(View()) && |frame| >= 14 {
        SafeOutput(View(), frame[..6], frame[12..14], frame[14..], memory, copied);
      }
      var connected := IsConnected();
      if |frame| >= 14 {
        OutputIs(View(), frame[..6], frame[12..14], frame[14..], memory, copied);
      }
      if !connected {
        return false, [];
      }
      ok, tx := TxDataFrame(frame, memory, copied);
    }

    method IsConnected() returns (connected: bool)
      ensures connected == MaySend(View())
    {
      connected := state == Connected || (state == Scanning && scanReturnState == Connected
                     && (manualScanChannelCount == 0 || manualScanOnHomeChannel));
    }

    method ProcessRxMgmt(frame: bytes, memory: bool, ghost random: Nonce, ghost luck: Luck)
      requires |frame| >= 24 && Join(frame[0], frame[1]) & 0x000c == 0
      modifies this
      ensures var o := Receive(old(View()), frame, random, luck, memory); View() == o.sta && o.sent == []
    {
      hide View, Join, OnAuth, OnAssoc, OnDeauth, StationSpec.HandleEapol, Deliver;
      var stype := Join(frame[0], frame[1]) & 0x00f0;
      if stype == 0x00b0 {
        ProcessAuth(frame[16..22], frame[24..]);
      } else if stype == 0x0010 || stype == 0x0030 {
        ProcessAssocResponse(frame[16..22], frame[24..], memory);
      } else if stype == 0x00a0 || stype == 0x00c0 {
        ProcessDeauth(frame[4..10], frame[10..16], frame[16..22]);
      }
    }

    /** A data frame outside any block-ack agreement: to the handshake, or to the network stack. */
    method ProcessRxData(frame: bytes, random: Nonce, luck: Luck, ghost memory: bool) returns (up: seq<Ethernet>, tx: seq<Tx>)
      requires |frame| >= 24 && Join(frame[0], frame[1]) & 0x000c == 0x0008
      modifies this
      ensures var o := Receive(old(View()), frame, random, luck, memory); View() == o.sta && tx == Wire(o.sent)
      ensures up == Upward(old(View()), frame)
    {
      hide Join, Wire, StationSpec.HandleEapol, Deliver;
      WireNothing();
      if !(state == Connected || state == Handshaking || (state == Scanning && scanReturnState == Connected)) {
        return [], [];
      }
      var delivery := DeliverDataFrame(frame, state == Handshaking);
      match delivery {
        case Dropped =>
          up, tx := [], [];
        case Frames(xs) =>
          up, tx := xs, [];
        case Eapol(message) =>
          up := [];
          EapolOnlyInHandshake(frame, state == Handshaking);
          tx := HandleEapol(message, random, luck);
      }
    }

    /** Any received frame: management, data, or neither. */
    method RxFrame(frame: bytes, random: Nonce, luck: Luck, memory: bool) returns (up: seq<Ethernet>, tx: seq<Tx>)
      requires |frame| >= 24
      modifies this
      ensures var o := Receive(old(View()), frame, random, luck, memory); View() == o.sta && tx == Wire(o.sent)
      ensures up == Upward(old(View()), frame)
      ensures old(Safe()) ==> Safe()
    {
      hide View, Join, Wire, Step, Deliver, StationSafety.Safe, StationSpec.Receive, Upward;
      WireNothing();
      SafeReceive(View(), frame, random, luck, memory);
      NeitherKind(View(), frame, random, luck, memory);
      up, tx := [], [];
      var kind := Join(frame[0], frame[1]) & 0x000c;
      if kind == 0 {
        ProcessRxMgmt(frame, memory, random, luck);
      } else if kind == 0x0008 {
        up, tx := ProcessRxData(frame, random, luck, memory);
      }
    }
  }
}
