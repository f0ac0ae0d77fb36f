/** Whether two protected frames can share key and packet number, which CCMP must never let happen
    (section 12.5.3.3 of IEEE Std 802.11-2016). */
module CcmpNumbers {
  import opened Bytes
  import opened Options
  import opened DataFrame
  import opened KeyDerivation
  import opened Eapol
  import opened StationSpec
  import opened StationSafety
  import opened Links
  import opened Passphrase
  import Handshake
  import Kde

  /** No two frames of the list share key and packet number. */
  ghost predicate Apart(xs: seq<Sent>) {
    forall i, j :: 0 <= i < j < |xs| ==> xs[i].key != xs[j].key || xs[i].content.pn != xs[j].content.pn
  }

  function Tk(s: Sta): bytes {
    s.ptk[32..48]
  }

  /** The event derives a pairwise key. */
  predicate Derives(s: Sta, e: Event) {
    hide IsMessage1Data;
    e.EapolData? && s.state == Handshaking && IsMessage1Data(e.data)
  }

  function SeenAfter(s: Sta, e: Event, seen: set<bytes>): set<bytes> {
    hide Step, Derives;
    if Derives(s, e) then seen + {Tk(Step(s, e).sta)} else seen
  }

  /** What a run must keep to for packet numbers not to come back: the connect thread does not run while a pairwise key
      is in; nonces give temporal keys not seen before; a key is installed only once a message 1 was handled since keys
      were last cleared; and fewer than 2 to the 48th frames are sent under an installation. */
  datatype Proviso = NoThreadOverKey | FreshNonces | Message1First | FewFrames

  predicate Meets(p: Proviso, s: Sta, e: Event, seen: set<bytes>) {
    hide Step, Derives;
    match p
    case NoThreadOverKey => e.ConnectFires? && s.pending > 0 ==> s.pairwise.None?
    case FreshNonces => Derives(s, e) ==> Tk(Step(s, e).sta) !in seen
    case Message1First => Step(s, e).sta.installs > s.installs ==> s.derived
    case FewFrames => Step(s, e).sta.sent < PN_RANGE
  }

  predicate MeetsRun(p: Proviso, s: Sta, es: seq<Event>, seen: set<bytes>)
    decreases |es|
  {
    hide Step, Meets, SeenAfter;
    |es| == 0 || (Meets(p, s, es[0], seen) && MeetsRun(p, Step(s, es[0]).sta, es[1..], SeenAfter(s, es[0], seen)))
  }

  ghost predicate MeetsAll(s: Sta, e: Event, seen: set<bytes>) {
    hide Meets;
    forall p :: Meets(p, s, e, seen)
  }

  ghost predicate MeetsAllRun(s: Sta, es: seq<Event>, seen: set<bytes>) {
    hide MeetsRun;
    forall p :: MeetsRun(p, s, es, seen)
  }

  lemma AllOn(s: Sta, es: seq<Event>, seen: set<bytes>)
    requires MeetsAllRun(s, es, seen) && |es| > 0
    ensures MeetsAll(s, es[0], seen) && MeetsAllRun(Step(s, es[0]).sta, es[1..], SeenAfter(s, es[0], seen))
  {
    hide Step, Meets, SeenAfter, MeetsRun;
    forall p: Proviso
      ensures Meets(p, s, es[0], seen) && MeetsRun(p, Step(s, es[0]).sta, es[1..], SeenAfter(s, es[0], seen))
    {
      assert MeetsRun(p, s, es, seen);
      MeetsOn(p, s, es, seen);
    }
  }

  lemma MeetsOn(p: Proviso, s: Sta, es: seq<Event>, seen: set<bytes>)
    requires MeetsRun(p, s, es, seen) && |es| > 0
    ensures Meets(p, s, es[0], seen) && MeetsRun(p, Step(s, es[0]).sta, es[1..], SeenAfter(s, es[0], seen))
  {
    hide Step, Meets, SeenAfter;
  }

  lemma AllMeans(s: Sta, e: Event, seen: set<bytes>)
    requires MeetsAll(s, e, seen)
    ensures e.ConnectFires? && s.pending > 0 ==> s.pairwise.None?
    ensures Derives(s, e) ==> Tk(Step(s, e).sta) !in seen
    ensures Step(s, e).sta.installs > s.installs ==> s.derived
    ensures Step(s, e).sta.sent < PN_RANGE
  {
    hide Step, Derives;
    assert Meets(NoThreadOverKey, s, e, seen) && Meets(FreshNonces, s, e, seen) && Meets(Message1First, s, e, seen)
        && Meets(FewFrames, s, e, seen);
  }

  /** The temporal keys in use so far are among those seen; the current one, once used, is in and the station
      is not on its way to install it again. */
  ghost predicate Fresh(s: Sta, used: set<bytes>, seen: set<bytes>) {
    && used <= seen
    && (s.derived ==> Tk(s) in seen)
    && (s.derived && Tk(s) in used ==> !Approaching(s) && s.pairwise.Some?)
    && (s.state == Connected && s.wpa2 ==> s.derived)
  }

  /** Keys of later frames: that of the current installation, or one not used before. */
  ghost predicate Later(s: Sta, used: set<bytes>, x: Sent) {
    && x.key.Some? && x.ordinal < PN_RANGE && LittleEndian(x.content.pn) == x.ordinal
    && ((x.epoch == s.installs && x.key == s.pairwise) || (x.epoch > s.installs && x.key.value.key !in used))
  }

  // Only the network stack's frames are protected.

  lemma ReplyUnprotected(s: Sta, step: nat, luck: Luck)
    ensures forall x :: x in SendReply(s, step, luck).sent ==> x.key.None?
  {
    hide Signed, Reply, Counted, NextSeqCtrl;
    CountedKeeps(s, false);
  }

  lemma LastReplyUnprotected(s: Sta, luck: Luck)
    ensures forall x :: x in LastReply(s, luck).sent ==> x.key.None?
  {
    hide SendReply;
    ReplyUnprotected(s, 4, luck);
  }

  lemma EapolUnprotected(s: Sta, data: bytes, snonce: Nonce, luck: Luck)
    ensures forall x :: x in HandleEapol(s, data, snonce, luck).sent ==> x.key.None?
  {
    hide Number, Info, MicOk, ClearKeyData, Kde.GtkOf, Install, Message1;
    if |data| >= 99 {
      Message1Unprotected(s, data, snonce, luck);
      forall t: Sta, gtk
        ensures forall x :: x in Install(t, gtk, luck).sent ==> x.key.None?
      {
        InstallUnprotected(t, gtk, luck);
      }
    }
  }

  lemma Message1Unprotected(s: Sta, data: bytes, snonce: Nonce, luck: Luck)
    requires |data| >= 99
    ensures forall x :: x in Message1(s, data, snonce, luck).sent ==> x.key.None?
  {
    hide PtkOf, SendReply;
    var anonce: Nonce := data[17..49];
    ReplyUnprotected(s.(anonce := anonce, snonce := snonce, ptk := PtkOf(s.pmk, anonce, snonce, s.mac, s.target.bssid),
                        counter := data[9..17], derived := true), 2, luck);
  }

  lemma InstallUnprotected(s: Sta, gtk: Option<Kde.Gtk>, luck: Luck)
    ensures forall x :: x in Install(s, gtk, luck).sent ==> x.key.None?
  {
    hide InstallPairwise, InstallGroup, LastReply;
    var t := InstallPairwise(s, 0, Ccmp, s.ptk[32..48], luck.pairwiseMemory, luck.pairwiseSet).0;
    LastReplyUnprotected(t, luck);
    if gtk.Some? {
      LastReplyUnprotected(InstallGroup(t, gtk.value.index, GroupCipher(t), gtk.value.key, luck.groupMemory, luck.groupSet).0, luck);
    }
  }

  /** A protected frame is one of the network stack's, sent from a connected WPA2 station under the installed key. */
  ghost predicate SentUnder(s: Sta, x: Sent) {
    && s.state == Connected && s.wpa2 && x.key == s.pairwise && s.pairwise == TemporalKey(s)
    && x.epoch == s.installs && x.ordinal == s.sent + 1
  }

  lemma TxUnder(s: Sta, da: Address, etherType: bytes, payload: bytes, memory: bool, copied: bool)
    requires Safe(s) && s.state == Connected && |etherType| == 2
    ensures var o := TxData(s, da, etherType, payload, memory, copied);
      && |o.sent| <= 1
      && forall x :: x in o.sent && x.key.Some? ==> SentUnder(s, x) && o.sta.sent == s.sent + 1
  {
    hide Incremented, LittleEndian, NextSeqCtrl, SeqCtrl;
  }

  lemma ProtectedIsOutput(s: Sta, e: Event, x: Sent)
    requires Safe(s) && x in Step(s, e).sent && x.key.Some?
    ensures e.Output? && SentUnder(s, x) && Step(s, e).sta.sent == s.sent + 1
  {
    hide LittleEndian, HandleEapol, TxData;
    match e {
      case EapolData(data, snonce, luck) =>
        EapolUnprotected(s, data, snonce, luck);
      case Output(da, etherType, payload, memory, copied) =>
        TxUnder(s, da, etherType, payload, memory, copied);
      case _ =>
    }
  }

  // One event keeps freshness.

  lemma FollowsFresh(s: Sta, t: Sta, used: set<bytes>, seen: set<bytes>)
    requires Fresh(s, used, seen) && Follows(s, t) && Safe(t)
    requires t.state == Connected && t.wpa2 ==> s.state == Connected
    ensures Fresh(t, used, seen)
  {
    hide NoPtk, LittleEndian;
  }

  lemma OthersFresh(s: Sta, t: Sta, used: set<bytes>, seen: set<bytes>)
    requires Fresh(s, used, seen) && (t.state == Connected && t.wpa2 ==> s.state == Connected)
    requires Aimed(s, t) || TakenIn(s, t) || (Fired(s, t) && s.pairwise.None?)
    ensures Fresh(t, used, seen)
  {
    hide NoPtk, Pbkdf2;
  }

  lemma RekeyedFresh(s: Sta, t: Sta, used: set<bytes>, seen: set<bytes>)
    requires Fresh(s, used, seen) && Rekeyed(s, t) && s.state == Handshaking && Tk(t) !in seen
    ensures Fresh(t, used, seen + {Tk(t)})
  {
    hide PtkOf;
  }

  lemma InstalledFresh(s: Sta, t: Sta, used: set<bytes>, seen: set<bytes>)
    requires Fresh(s, used, seen) && Installed(s, t) && s.state == Handshaking && (t.installs > s.installs ==> s.derived)
    ensures Fresh(t, used, seen)
    ensures t.installs > s.installs ==> t.pairwise == TemporalKey(s) && Tk(s) !in used
  {
  }

  /** What an event does to the installation, as later frames see it. */
  ghost predicate KeyGoesOn(s: Sta, used: set<bytes>, t: Sta) {
    (t.installs == s.installs && (t.pairwise == s.pairwise || t.pairwise.None?))
    || (t.installs == s.installs + 1 && t.pairwise == TemporalKey(s) && Tk(s) !in used)
  }

  lemma FollowsGoesOn(s: Sta, used: set<bytes>, t: Sta)
    requires Follows(s, t) || Aimed(s, t) || TakenIn(s, t) || Fired(s, t) || Rekeyed(s, t)
    ensures KeyGoesOn(s, used, t)
  {
    hide NoPtk, Pbkdf2, PtkOf;
  }

  lemma StepFresh(s: Sta, e: Event, used: set<bytes>, seen: set<bytes>)
    requires Safe(s) && Fresh(s, used, seen) && MeetsAll(s, e, seen)
    ensures Fresh(Step(s, e).sta, used, SeenAfter(s, e, seen))
    ensures KeyGoesOn(s, used, Step(s, e).sta)
  {
    hide Safe, Step, Follows, Aimed, TakenIn, Fired, Rekeyed, Installed, IsMessage1Data, Fresh, KeyGoesOn, MeetsAll, Handshake.Authentic;
    StepKeys(s, e);
    StepKeeps(s, e);
    AllMeans(s, e, seen);
    var t := Step(s, e).sta;
    if t.state == Connected && t.wpa2 && s.state != Connected {
      Handshake.OnlyAuthenticConnects(s, e);
    }
    if e.EapolData? && s.state == Handshaking {
      if IsMessage1Data(e.data) {
        RekeyedFresh(s, t, used, seen);
        FollowsGoesOn(s, used, t);
      } else {
        InstalledFresh(s, t, used, seen);
        InstalledGoesOn(s, used, t);
      }
    } else if Follows(s, t) {
      FollowsFresh(s, t, used, seen);
      FollowsGoesOn(s, used, t);
    } else {
      FiredPending(s, t);
      OthersFresh(s, t, used, seen);
      FollowsGoesOn(s, used, t);
    }
  }

  lemma FiredPending(s: Sta, t: Sta)
    ensures Fired(s, t) ==> s.pending > 0
  {
  }

  lemma InstalledGoesOn(s: Sta, used: set<bytes>, t: Sta)
    requires Installed(s, t) && (t.installs > s.installs ==> Tk(s) !in used)
    ensures KeyGoesOn(s, used, t)
  {
  }

  /** A frame later than the next event is later than this one. */
  lemma LaterBefore(s: Sta, used: set<bytes>, t: Sta, more: set<bytes>, x: Sent)
    requires KeyGoesOn(s, used, t) && used <= more && Later(t, more, x)
    ensures Later(s, used, x)
  {
    hide LittleEndian;
  }

  /** Sending puts the key in use; the station stays connected, with the key in. */
  lemma UsedFresh(s: Sta, e: Event, used: set<bytes>, seen: set<bytes>)
    requires Safe(s) && Fresh(s, used, seen) && MeetsAll(s, e, seen) && |Protected(Step(s, e).sent)| > 0
    ensures var x := Protected(Step(s, e).sent)[0]; var t := Step(s, e).sta;
      && Protected(Step(s, e).sent) == [x]
      && Fresh(t, used + {Tk(s)}, SeenAfter(s, e, seen)) && SeenAfter(s, e, seen) == seen
      && t.installs == s.installs && t.pairwise == s.pairwise && s.pairwise == TemporalKey(s) && t.sent == s.sent + 1
      && x.key == s.pairwise && x.epoch == s.installs && x.ordinal == s.sent + 1 && LittleEndian(x.content.pn) == x.ordinal
      && x.ordinal < PN_RANGE
  {
    hide Step, LittleEndian, Safe, IsMessage1Data, Follows, MeetsAll;
    StepKeeps(s, e);
    AllMeans(s, e, seen);
    OneProtected(Step(s, e).sent);
    var x := Protected(Step(s, e).sent)[0];
    ProtectedIsOutput(s, e, x);
    StepKeys(s, e);
    OutputKeeps(s, e);
  }

  lemma OneProtected(xs: seq<Sent>)
    requires |xs| <= 1 && |Protected(xs)| > 0
    ensures Protected(xs) == [Protected(xs)[0]] && Protected(xs)[0] in xs && Protected(xs)[0].key.Some?
  {
    assert xs[1..] == [];
  }

  lemma OutputKeeps(s: Sta, e: Event)
    requires e.Output?
    ensures var t := Step(s, e).sta;
      t.state == s.state && t.wpa2 == s.wpa2 && t.ptk == s.ptk && t.derived == s.derived && t.pairwise == s.pairwise
      && t.installs == s.installs
  {
    hide TxData;
    OutputCounts(s, e.da, e.etherType, e.payload, e.memory, e.copied);
  }

  lemma OutputCounts(s: Sta, da: Address, etherType: bytes, payload: bytes, memory: bool, copied: bool)
    requires |etherType| == 2
    ensures var t := TxData(s, da, etherType, payload, memory, copied).sta;
      t == s.(pn := t.pn, sent := t.sent, dataSeq := t.dataSeq, txSeq := t.txSeq)
  {
    hide Counted, NextSeqCtrl;
    CountedKeeps(s, Protects(s, etherType));
  }

  // Runs.

  lemma AheadOfRest(s: Sta, es: seq<Event>)
    requires Safe(s) && |es| > 0 && Step(s, es[0]).sta.pairwise.Some?
    ensures var t := Step(s, es[0]).sta; var xs := Protected(Run(t, es[1..]).sent);
      forall i :: 0 <= i < |xs| && xs[i].epoch == t.installs ==> xs[i].ordinal > t.sent
  {
    hide Step, Safe, Run, Protected, LittleEndian;
    StepKeeps(s, es[0]);
    PacketNumbers(Step(s, es[0]).sta, es[1..]);
  }

  lemma FirstApart(x: Sent, rest: seq<Sent>, t: Sta, used: set<bytes>)
    requires x.key.Some? && x.key.value.key in used && LittleEndian(x.content.pn) == x.ordinal == t.sent && x.epoch == t.installs
    requires Apart(rest) && forall i :: 0 <= i < |rest| ==> Later(t, used, rest[i])
    requires forall i :: 0 <= i < |rest| && rest[i].epoch == t.installs ==> rest[i].ordinal > t.sent
    ensures Apart([x] + rest)
  {
    hide LittleEndian;
    var xs := [x] + rest;
    forall j | 1 <= j < |xs|
      ensures x.key != xs[j].key || x.content.pn != xs[j].content.pn
    {
      assert Later(t, used, rest[j - 1]);
      assert xs[j] == rest[j - 1];
    }
  }

  lemma {:induction false} RunApart(s: Sta, es: seq<Event>, used: set<bytes>, seen: set<bytes>)
    requires Safe(s) && Fresh(s, used, seen) && MeetsAllRun(s, es, seen)
    ensures Apart(Protected(Run(s, es).sent))
    ensures forall i :: 0 <= i < |Protected(Run(s, es).sent)| ==> Later(s, used, Protected(Run(s, es).sent)[i])
    decreases |es|
  {
    hide Step, Safe, Fresh, MeetsAll, MeetsAllRun, Protected, SeenAfter, KeyGoesOn, Later;
    if |es| == 0 {
      NothingForward(s);
    } else {
      var o := Step(s, es[0]);
      var rest := Run(o.sta, es[1..]);
      StepKeeps(s, es[0]);
      AllOn(s, es, seen);
      StepFresh(s, es[0], used, seen);
      ProtectedConcat(o.sent, rest.sent);
      if |Protected(o.sent)| > 0 {
        UsedFresh(s, es[0], used, seen);
        RunApart(o.sta, es[1..], used + {Tk(s)}, SeenAfter(s, es[0], seen));
        AheadOfRest(s, es);
        FirstApart(Protected(o.sent)[0], Protected(rest.sent), o.sta, used + {Tk(s)});
      } else {
        RunApart(o.sta, es[1..], used, SeenAfter(s, es[0], seen));
        assert Protected(o.sent + rest.sent) == Protected(rest.sent);
      }
      var xs := Protected(Run(o.sta, es[1..]).sent);
      forall i | 0 <= i < |xs|
        ensures Later(s, used, xs[i])
      {
        LaterBefore(s, used, o.sta, if |Protected(o.sent)| > 0 then used + {Tk(s)} else used, xs[i]);
      }
      if |Protected(o.sent)| > 0 {
        FirstLater(s, used, Protected(o.sent)[0]);
      }
      AllLater(s, used, Protected(o.sent), xs);
    }
  }

  lemma FirstLater(s: Sta, used: set<bytes>, x: Sent)
    requires x.key.Some? && x.key == s.pairwise && x.epoch == s.installs && x.ordinal < PN_RANGE && LittleEndian(x.content.pn) == x.ordinal
    ensures Later(s, used, x)
  {
  }

  lemma AllLater(s: Sta, used: set<bytes>, xs: seq<Sent>, ys: seq<Sent>)
    requires |xs| <= 1 && (|xs| > 0 ==> Later(s, used, xs[0])) && forall i :: 0 <= i < |ys| ==> Later(s, used, ys[i])
    ensures forall i :: 0 <= i < |xs + ys| ==> Later(s, used, (xs + ys)[i])
  {
    hide Later;
    forall i | 0 <= i < |xs + ys|
      ensures Later(s, used, (xs + ys)[i])
    {
      if i >= |xs| {
        assert (xs + ys)[i] == ys[i - |xs|];
      }
    }
  }

  /** From power-up, in every run that keeps all provisos: no two protected frames share key and packet number. */
  lemma NoPacketNumberTwice(s: Sta, es: seq<Event>)
    requires Initial(s) && forall p :: MeetsRun(p, s, es, {})
    ensures Apart(Protected(Run(s, es).sent))
  {
    hide Run, MeetsRun, Apart, Protected, Safe, Later;
    InitialKeyed(s);
    RunApart(s, es, {}, {});
  }

  // Within one connection.

  predicate Connects(e: Event) {
    e.Connect?
  }

  ghost predicate SameConnection(es: seq<Event>) {
    forall e :: e in es ==> !Connects(e)
  }

  /** Nothing leads a station that is not approaching, and has no thread to come, back to a handshake but a new
      connect command. */
  lemma StaysAway(s: Sta, e: Event)
    requires Safe(s) && !Approaching(s) && s.pending == 0 && !e.Connect?
    ensures var t := Step(s, e).sta; !Approaching(t) && t.pending == 0 && t.installs == s.installs
  {
    hide Step, Safe, IsMessage1Data, NoPtk, MasterKey;
    StepKeys(s, e);
    if e.AssocResponse? {
      NoAssociation(s, e);
    } else if e.ConnectFires? {
      NoThread(s);
    } else {
      StepOnward(s, e);
    }
  }

  lemma NoAssociation(s: Sta, e: Event)
    requires e.AssocResponse? && s.state != Associating
    ensures Step(s, e).sta == s
  {
    hide OnAssoc;
    AssocOnward(s, e.addr3, e.body, e.memory);
  }

  lemma NoThread(s: Sta)
    requires s.pending == 0
    ensures Step(s, ConnectFires).sta == s
  {
  }

  /** The frames of a station that stays with its installation. */
  ghost predicate UnderOne(epoch: nat, xs: seq<Sent>) {
    forall i :: 0 <= i < |xs| ==> xs[i].epoch == epoch && xs[i].ordinal < PN_RANGE
  }

  lemma OneUnder(s: Sta, e: Event)
    requires Safe(s) && Step(s, e).sta.sent < PN_RANGE
    ensures UnderOne(s.installs, Protected(Step(s, e).sent))
  {
    hide Step, Safe, LittleEndian;
    StepKeeps(s, e);
    var xs := Step(s, e).sent;
    if |Protected(xs)| > 0 {
      OneProtected(xs);
      ProtectedIsOutput(s, e, Protected(xs)[0]);
    }
  }

  lemma {:induction false} RunUnderOne(s: Sta, es: seq<Event>)
    requires Safe(s) && !Approaching(s) && s.pending == 0 && SameConnection(es) && MeetsRun(FewFrames, s, es, {})
    ensures UnderOne(s.installs, Protected(Run(s, es).sent))
    decreases |es|
  {
    hide Step, Safe, Protected, Approaching, SeenAfter;
    if |es| == 0 {
      NothingForward(s);
    } else {
      assert es[0] in es && !Connects(es[0]);
      var o := Step(s, es[0]);
      StaysAway(s, es[0]);
      StepKeeps(s, es[0]);
      OneUnder(s, es[0]);
      SeenAside(FewFrames, o.sta, es[1..], SeenAfter(s, es[0], {}), {});
      RunUnderOne(o.sta, es[1..]);
      ProtectedConcat(o.sent, Run(o.sta, es[1..]).sent);
    }
  }

  /** The keys seen matter to the proviso on nonces only. */
  lemma {:induction false} SeenAside(p: Proviso, s: Sta, es: seq<Event>, seen: set<bytes>, other: set<bytes>)
    requires p != FreshNonces && MeetsRun(p, s, es, seen)
    ensures MeetsRun(p, s, es, other)
    decreases |es|
  {
    hide Step, SeenAfter, Derives;
    if |es| > 0 {
      SeenAside(p, Step(s, es[0]).sta, es[1..], SeenAfter(s, es[0], seen), SeenAfter(s, es[0], other));
    }
  }

  /** A connected WPA2 station whose connect thread has not to run, its pairwise key derived or not: until the next
      connect command no packet number comes twice, if fewer than 2 to the 48th frames are sent. */
  lemma OneConnectionApart(s: Sta, es: seq<Event>)
    requires Safe(s) && s.state == Connected && s.pending == 0 && SameConnection(es) && MeetsRun(FewFrames, s, es, {})
    ensures Apart(Protected(Run(s, es).sent))
  {
    hide Run, Protected, LittleEndian, Safe, At, MeetsRun;
    PacketNumbers(s, es);
    RunUnderOne(s, es);
    var xs := Protected(Run(s, es).sent);
    forall i, j | 0 <= i < j < |xs|
      ensures xs[i].content.pn != xs[j].content.pn
    {
      assert Before(Of(xs[i]), Of(xs[j]));
      Injective(xs[i].content.pn, xs[j].content.pn);
    }
  }
}
