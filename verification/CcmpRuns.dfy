/** Runs in which key and packet number come twice: one for each proviso of NoPacketNumberTwice, and when one connection
    can come to it. */
module CcmpRuns {
  import opened Bytes
  import opened Options
  import opened DataFrame
  import opened KeyDerivation
  import opened Eapol
  import opened StationSpec
  import opened StationSafety
  import opened Passphrase
  import opened CcmpNumbers
  import opened Management
  import Handshake

  // Runs put together from pieces.

  /** A state on the way of a run, with the temporal keys seen so far. */
  datatype Stage = Stage(sta: Sta, seen: set<bytes>)

  function SeenRun(s: Sta, es: seq<Event>, seen: set<bytes>): set<bytes>
    decreases |es|
  {
    hide Step, SeenAfter;
    if |es| == 0 then seen else SeenRun(Step(s, es[0]).sta, es[1..], SeenAfter(s, es[0], seen))
  }

  /** The events lead from one stage to the other, send these protected frames, and keep all provisos but those lacking. */
  ghost predicate Trace(lacking: set<Proviso>, a: Stage, es: seq<Event>, b: Stage, xs: seq<Sent>) {
    hide Run, SeenRun, Protected, MeetsRun, Safe;
    && Run(a.sta, es).sta == b.sta && SeenRun(a.sta, es, a.seen) == b.seen && Protected(Run(a.sta, es).sent) == xs
    && Safe(b.sta) && forall p :: p !in lacking ==> MeetsRun(p, a.sta, es, a.seen)
  }

  lemma {:induction false} RunConcat(s: Sta, es: seq<Event>, fs: seq<Event>, seen: set<bytes>, p: Proviso)
    ensures var t := Run(s, es).sta;
      && Run(s, es + fs).sta == Run(t, fs).sta
      && Protected(Run(s, es + fs).sent) == Protected(Run(s, es).sent) + Protected(Run(t, fs).sent)
      && SeenRun(s, es + fs, seen) == SeenRun(t, fs, SeenRun(s, es, seen))
      && (MeetsRun(p, s, es + fs, seen) <==> MeetsRun(p, s, es, seen) && MeetsRun(p, t, fs, SeenRun(s, es, seen)))
    decreases |es|
  {
    hide Step, Protected, SeenAfter, Meets;
    if |es| == 0 {
      assert es + fs == fs;
      NothingForward(s);
    } else {
      var o := Step(s, es[0]);
      assert (es + fs)[0] == es[0] && (es + fs)[1..] == es[1..] + fs;
      RunConcat(o.sta, es[1..], fs, SeenAfter(s, es[0], seen), p);
      ProtectedConcat(o.sent, Run(o.sta, es[1..]).sent);
      ProtectedConcat(o.sent, Run(o.sta, es[1..] + fs).sent);
    }
  }

  lemma TraceOn(lacking: set<Proviso>, a: Stage, es: seq<Event>, b: Stage, xs: seq<Sent>, fs: seq<Event>, c: Stage, ys: seq<Sent>)
    requires Trace(lacking, a, es, b, xs) && Trace(lacking, b, fs, c, ys)
    ensures Trace(lacking, a, es + fs, c, xs + ys)
  {
    hide Run, SeenRun, Protected, MeetsRun, Safe;
    RunConcat(a.sta, es, fs, a.seen, NoThreadOverKey);
    forall p: Proviso | p !in lacking
      ensures MeetsRun(p, a.sta, es + fs, a.seen)
    {
      RunConcat(a.sta, es, fs, a.seen, p);
    }
  }

  lemma QuietOn(lacking: set<Proviso>, a: Stage, es: seq<Event>, b: Stage, fs: seq<Event>, c: Stage, ys: seq<Sent>)
    requires Trace(lacking, a, es, b, []) && Trace(lacking, b, fs, c, ys)
    ensures Trace(lacking, a, es + fs, c, ys)
  {
    hide Trace;
    TraceOn(lacking, a, es, b, [], fs, c, ys);
    assert [] + ys == ys;
  }

  lemma OneEvent(lacking: set<Proviso>, a: Stage, e: Event)
    requires Safe(a.sta) && forall p :: p !in lacking ==> Meets(p, a.sta, e, a.seen)
    ensures Trace(lacking, a, [e], Stage(Step(a.sta, e).sta, SeenAfter(a.sta, e, a.seen)), Protected(Step(a.sta, e).sent))
  {
    hide Step, Safe, Meets, SeenAfter, Protected, Run, SeenRun, MeetsRun;
    StepKeeps(a.sta, e);
    forall p
      ensures MeetsRun(p, a.sta, [e], a.seen) <==> Meets(p, a.sta, e, a.seen)
    {
      OneMeets(p, a.sta, e, a.seen);
    }
    OneRun(a.sta, e, a.seen);
  }

  lemma OneMeets(p: Proviso, s: Sta, e: Event, seen: set<bytes>)
    ensures MeetsRun(p, s, [e], seen) <==> Meets(p, s, e, seen)
  {
    hide Step, Meets, SeenAfter;
    assert [e][1..] == [];
  }

  lemma OneRun(s: Sta, e: Event, seen: set<bytes>)
    ensures Run(s, [e]).sta == Step(s, e).sta && Run(s, [e]).sent == Step(s, e).sent
    ensures SeenRun(s, [e], seen) == SeenAfter(s, e, seen)
  {
    hide Step, SeenAfter;
    assert [e][1..] == [];
    assert Step(s, e).sent + [] == Step(s, e).sent;
  }

  lemma AllMet(lacking: set<Proviso>, s: Sta, e: Event, seen: set<bytes>)
    requires NoThreadOverKey !in lacking ==> e.ConnectFires? && s.pending > 0 ==> s.pairwise.None?
    requires FreshNonces !in lacking ==> Derives(s, e) ==> Tk(Step(s, e).sta) !in seen
    requires Message1First !in lacking ==> Step(s, e).sta.installs > s.installs ==> s.derived
    requires FewFrames !in lacking ==> Step(s, e).sta.sent < PN_RANGE
    ensures forall p :: p !in lacking ==> Meets(p, s, e, seen)
  {
    hide Step, Derives;
  }

  /** An event that sends nothing protected and derives no key. */
  lemma Uneventful(lacking: set<Proviso>, a: Stage, e: Event)
    requires Safe(a.sta) && !e.Output? && !Derives(a.sta, e) && Step(a.sta, e).sta.sent < PN_RANGE
    requires e.ConnectFires? && a.sta.pending > 0 ==> a.sta.pairwise.None? || NoThreadOverKey in lacking
    requires Step(a.sta, e).sta.installs > a.sta.installs ==> a.sta.derived || Message1First in lacking
    ensures Trace(lacking, a, [e], Stage(Step(a.sta, e).sta, a.seen), [])
  {
    hide Step, Safe, Derives, Protected, Trace;
    AllMet(lacking, a.sta, e, a.seen);
    OneEvent(lacking, a, e);
    StepKeeps(a.sta, e);
    var xs := Step(a.sta, e).sent;
    if |Protected(xs)| > 0 {
      OneProtected(xs);
      ProtectedIsOutput(a.sta, e, Protected(xs)[0]);
    }
  }

  // The pieces.

  /** What access point, network and chance bring to a connection: the messages of the handshake, the station's nonce. */
  datatype Link = Link(bss: Bss, secret: bytes, f1: KeyFrame, f3: KeyFrame, snonce: Nonce)

  predicate Fair(x: Link) {
    && x.bss.cipher == Ccmp && Handshake.IsMessage1(x.f1.info) && 95 + |x.f1.data| < 0x1_0000
    && x.f3.info & 0x01c8 == 0x01c8 && x.f3.data == []
  }

  function LinkPtk(x: Link, mac: Address): Ptk {
    hide PtkOf, Pbkdf2;
    PtkOf(Pbkdf2(Cut(CString(x.secret), 63), Cut(x.bss.ssid, 120), 4096), x.f1.nonce, x.snonce, mac, x.bss.bssid)
  }

  /** Connecting, up to the handshake; late says that the connect thread does not get to run. */
  function Joining(x: Link, late: bool): seq<Event> {
    [Connect(true, Some(x.bss), x.secret, false, true)] + (if late then [] else [ConnectFires]) + Answers(x.bss)
  }

  /** The access point's answers to authentication and association. */
  function Answers(bss: Bss): seq<Event> {
    [AuthResponse(bss.bssid, Granted()), AssocResponse(bss.bssid, Admitted(), true)]
  }

  function First(x: Link): Event {
    hide Encode;
    EapolData(Encode(x.f1, Zeros(16)) + [], x.snonce, LUCKY)
  }

  function Third(x: Link, kck: bytes): Event {
    hide Signed;
    EapolData(Signed(x.f3, kck), x.snonce, LUCKY)
  }

  const IPV4: bytes := [0x08, 0x00]

  function Packet(da: Address): Event {
    Output(da, IPV4, [], true, true)
  }

  function Packets(da: Address, n: nat): seq<Event> {
    if n == 0 then [] else [Packet(da)] + Packets(da, n - 1)
  }

  predicate Resting(s: Sta) {
    s.state == Idle && s.attached && s.sent == 0
  }

  predicate Shaking(s: Sta) {
    s.state == Handshaking && s.attached && s.wpa2 && s.peer
  }

  predicate Sending(s: Sta) {
    s.state == Connected && s.attached && s.wpa2 && s.peer
  }

  lemma StartTrace(lacking: set<Proviso>, s: Sta) returns (b: Stage)
    requires Initial(s)
    ensures Trace(lacking, Stage(s, {}), [Start(true, true, true)], b, [])
    ensures Resting(b.sta) && b.seen == {} && b.sta.mac == s.mac
  {
    hide Safe, NoPn, NoPtk, Trace;
    InitialKeyed(s);
    Uneventful(lacking, Stage(s, {}), Start(true, true, true));
    b := Stage(Step(s, Start(true, true, true)).sta, {});
  }

  lemma Aims(s: Sta, x: Link)
    requires Safe(s) && Resting(s) && x.bss.cipher == Ccmp
    ensures var t := Step(s, Connect(true, Some(x.bss), x.secret, false, true)).sta;
      && t.state == Authenticating && t.attached && t.wpa2 && !t.derived && t.ptk == NoPtk() && t.pairwise.None?
      && t.target == x.bss && t.password == Cut(CString(x.secret), 63) && t.mac == s.mac && t.sent == 0 && t.pending == s.pending + 1
      && t.installs == s.installs
  {
    hide CString, NoPtk, NoPn, LittleEndian;
  }

  /** Both answers: from waiting for authentication to the handshake. */
  lemma AnswersTrace(lacking: set<Proviso>, a: Stage) returns (b: Stage)
    requires Safe(a.sta) && a.sta.state == Authenticating && a.sta.attached && a.sta.wpa2 && a.sta.sent < PN_RANGE
    ensures Trace(lacking, a, Answers(a.sta.target), b, []) && Safe(b.sta) && Shaking(b.sta) && b.seen == a.seen
    ensures b.sta.ptk == a.sta.ptk && b.sta.derived == a.sta.derived && b.sta.sent == a.sta.sent && b.sta.mac == a.sta.mac
    ensures b.sta.target == a.sta.target && b.sta.pmk == MasterKey(a.sta) && b.sta.pending == a.sta.pending
  {
    hide Step, Safe, Trace, MasterKey;
    AuthenticationAccepted(a.sta);
    var e, f := AuthResponse(a.sta.target.bssid, Granted()), AssocResponse(a.sta.target.bssid, Admitted(), true);
    Uneventful(lacking, a, e);
    StepKeeps(a.sta, e);
    var m := Stage(Step(a.sta, e).sta, a.seen);
    Uneventful(lacking, m, f);
    StepKeeps(m.sta, f);
    b := Stage(Step(m.sta, f).sta, a.seen);
    QuietOn(lacking, a, [e], m, [f], b, []);
    assert [e] + [f] == Answers(a.sta.target);
  }

  lemma FireTrace(lacking: set<Proviso>, a: Stage) returns (b: Stage)
    requires Safe(a.sta) && a.sta.attached && a.sta.pending > 0 && a.sta.sent < PN_RANGE
    requires a.sta.pairwise.None? || NoThreadOverKey in lacking
    ensures Trace(lacking, a, [ConnectFires], b, []) && Safe(b.sta) && b.seen == a.seen
    ensures b.sta == a.sta.(state := Authenticating, pending := a.sta.pending - 1)
  {
    hide Safe, Trace;
    Uneventful(lacking, a, ConnectFires);
    StepKeeps(a.sta, ConnectFires);
    b := Stage(Step(a.sta, ConnectFires).sta, a.seen);
  }

  lemma NoEvents(lacking: set<Proviso>, a: Stage)
    requires Safe(a.sta)
    ensures Trace(lacking, a, [], a, [])
  {
    hide Safe;
  }

  lemma JoiningTrace(lacking: set<Proviso>, a: Stage, x: Link, late: bool) returns (b: Stage)
    requires Safe(a.sta) && Resting(a.sta) && Fair(x)
    ensures Trace(lacking, a, Joining(x, late), b, []) && Safe(b.sta) && Shaking(b.sta) && b.seen == a.seen
    ensures !b.sta.derived && b.sta.ptk == NoPtk() && b.sta.sent == 0 && b.sta.mac == a.sta.mac && b.sta.target == x.bss
    ensures b.sta.pmk == Pbkdf2(Cut(CString(x.secret), 63), Cut(x.bss.ssid, 120), 4096) && (late ==> b.sta.pending > 0)
  {
    hide Step, Safe, Trace, NoPtk, CString, Pbkdf2;
    var e := Connect(true, Some(x.bss), x.secret, false, true);
    Aims(a.sta, x);
    Uneventful(lacking, a, e);
    StepKeeps(a.sta, e);
    var m := Stage(Step(a.sta, e).sta, a.seen);
    var n := m;
    var fire := if late then [] else [ConnectFires];
    if late {
      NoEvents(lacking, m);
    } else {
      n := FireTrace(lacking, m);
    }
    QuietOn(lacking, a, [e], m, fire, n, []);
    b := AnswersTrace(lacking, n);
    QuietOn(lacking, a, [e] + fire, n, Answers(x.bss), b, []);
  }

  lemma FirstDerives(s: Sta, x: Link)
    requires s.state == Handshaking && Fair(x)
    ensures Derives(s, First(x)) && IsMessage1Data(First(x).data)
  {
    hide Encode, Number;
    Handshake.ReadThroughTail(x.f1, Zeros(16), []);
  }

  lemma Message1Trace(lacking: set<Proviso>, a: Stage, x: Link) returns (b: Stage)
    requires Safe(a.sta) && Shaking(a.sta) && a.sta.sent == 0 && a.sta.target == x.bss && Fair(x)
    requires a.sta.pmk == Pbkdf2(Cut(CString(x.secret), 63), Cut(x.bss.ssid, 120), 4096)
    requires LinkPtk(x, a.sta.mac)[32..48] !in a.seen || FreshNonces in lacking
    ensures Trace(lacking, a, [First(x)], b, []) && Safe(b.sta) && Shaking(b.sta)
    ensures b.seen == a.seen + {LinkPtk(x, a.sta.mac)[32..48]}
    ensures b.sta.derived && b.sta.ptk == LinkPtk(x, a.sta.mac) && b.sta.sent == 0
    ensures b.sta.mac == a.sta.mac && b.sta.target == a.sta.target && b.sta.pending == a.sta.pending
  {
    hide Step, Safe, Trace, Pbkdf2, CString, PtkOf, Encode, Derives, IsMessage1Data, Handshake.Answered, Protected;
    var s, e := a.sta, First(x);
    Handshake.Message1Answered(s, x.f1, Zeros(16), [], x.snonce, LUCKY);
    PtkSymmetric(s.pmk, x.f1.nonce, x.snonce, s.mac, s.target.bssid);
    PtkSymmetric(s.pmk, x.f1.nonce, x.snonce, s.target.bssid, s.mac);
    FirstDerives(s, x);
    StepKeeps(s, e);
    Uncounted(s, e);
    b := Stage(Step(s, e).sta, a.seen + {LinkPtk(x, s.mac)[32..48]});
    assert Tk(b.sta) == LinkPtk(x, s.mac)[32..48];
    AllMet(lacking, s, e, a.seen);
    OneEvent(lacking, a, e);
  }

  /** Frames of the handshake are not counted, and none of them is protected. */
  lemma Uncounted(s: Sta, e: Event)
    requires Safe(s) && e.EapolData? && s.state == Handshaking && IsMessage1Data(e.data)
    ensures Step(s, e).sta.sent == s.sent && Step(s, e).sta.installs == s.installs && Protected(Step(s, e).sent) == []
  {
    hide Number, Info, Message1, Message3, Safe, Rekeyed;
    var t := Step(s, e).sta;
    StepKeys(s, e);
    assert t.installs == s.installs by { RekeyedInstalls(s, t); }
    EapolUnprotected(s, e.data, e.snonce, e.luck);
    NoneProtected(Step(s, e).sent);
    Message1Uncounted(s, e.data, e.snonce, e.luck);
  }

  lemma RekeyedInstalls(s: Sta, t: Sta)
    requires Rekeyed(s, t)
    ensures t.installs == s.installs
  {
    hide PtkOf;
  }

  lemma {:induction false} NoneProtected(xs: seq<Sent>)
    requires forall x :: x in xs ==> x.key.None?
    ensures Protected(xs) == []
  {
    if |xs| > 0 {
      NoneProtected(xs[1..]);
    }
  }

  lemma Message1Uncounted(s: Sta, data: bytes, snonce: Nonce, luck: Luck)
    requires |data| >= 99
    ensures Message1(s, data, snonce, luck).sta.sent == s.sent
  {
    hide PtkOf, SendReply;
    var anonce: Nonce := data[17..49];
    ReplyUncounted(s.(anonce := anonce, snonce := snonce, ptk := PtkOf(s.pmk, anonce, snonce, s.mac, s.target.bssid),
                      counter := data[9..17], derived := true), 2, luck);
  }

  lemma ThirdDerivesNothing(s: Sta, x: Link, kck: bytes)
    requires Fair(x)
    ensures !Derives(s, Third(x, kck))
  {
    hide Encode, MicOf, Number;
    FieldsRead(x.f3, MicOf(kck, Encode(x.f3, Zeros(16))));
    NotMessage1(x.f3.info);
  }

  /** Message 3 under the key of the station, be it derived or zeros: the station connects. */
  lemma Message3Trace(lacking: set<Proviso>, a: Stage, x: Link) returns (b: Stage)
    requires Safe(a.sta) && Shaking(a.sta) && Fair(x) && (a.sta.derived || Message1First in lacking)
    ensures Trace(lacking, a, [Third(x, a.sta.ptk[..16])], b, []) && Safe(b.sta) && Sending(b.sta) && b.seen == a.seen
    ensures b.sta.pairwise == TemporalKey(a.sta) && b.sta.ptk == a.sta.ptk && b.sta.derived == a.sta.derived && b.sta.sent == 0
    ensures b.sta.mac == a.sta.mac && b.sta.target == a.sta.target && b.sta.pending == a.sta.pending
  {
    hide Step, Safe, Trace, Signed;
    var s, e := a.sta, Third(x, a.sta.ptk[..16]);
    ThirdDerivesNothing(s, x, s.ptk[..16]);
    EmptyMessage3Connects(s, x.f3, x.snonce);
    StepKeeps(s, e);
    Uneventful(lacking, a, e);
    b := Stage(Step(s, e).sta, a.seen);
  }

  // Packets.

  /** A connected WPA2 station sends a packet under the installed key. */
  lemma PacketSent(s: Sta, da: Address)
    requires Safe(s) && Sending(s)
    ensures var o := Step(s, Packet(da));
      && o.sta == s.(pn := o.sta.pn, sent := s.sent + 1, dataSeq := o.sta.dataSeq, txSeq := o.sta.txSeq)
      && |o.sent| == 1 && o.sent[0].key == s.pairwise == TemporalKey(s) && LittleEndian(o.sent[0].content.pn) == (s.sent + 1) % PN_RANGE
  {
    hide Incremented, LittleEndian, NextSeqCtrl, SeqCtrl;
    NextPn(s.pn, s.sent);
  }

  /** Frames numbered on from so many, all under one key. */
  ghost predicate Numbered(xs: seq<Sent>, key: Option<KeyConf>, sent: nat) {
    hide LittleEndian;
    forall i :: 0 <= i < |xs| ==> xs[i].key == key && LittleEndian(xs[i].content.pn) == (sent + i + 1) % PN_RANGE
  }

  lemma PacketTrace(lacking: set<Proviso>, a: Stage, da: Address) returns (b: Stage, xs: seq<Sent>)
    requires Safe(a.sta) && Sending(a.sta) && (FewFrames in lacking || a.sta.sent + 1 < PN_RANGE)
    ensures Trace(lacking, a, [Packet(da)], b, xs) && |xs| == 1 && Numbered(xs, TemporalKey(a.sta), a.sta.sent) && b.seen == a.seen
    ensures Safe(b.sta) && Sending(b.sta) && a.sta.pairwise == TemporalKey(a.sta)
    ensures b.sta == a.sta.(pn := b.sta.pn, sent := a.sta.sent + 1, dataSeq := b.sta.dataSeq, txSeq := b.sta.txSeq)
  {
    hide Step, Safe, Trace, LittleEndian;
    var s := a.sta;
    PacketSent(s, da);
    StepKeeps(s, Packet(da));
    AllMet(lacking, s, Packet(da), a.seen);
    OneEvent(lacking, a, Packet(da));
    b := Stage(Step(s, Packet(da)).sta, a.seen);
    xs := Step(s, Packet(da)).sent;
    assert Protected(xs) == xs by { OnlyProtected(xs); }
    assert xs[0].key == TemporalKey(s);
  }

  lemma OnlyProtected(xs: seq<Sent>)
    requires |xs| == 1 && xs[0].key.Some?
    ensures Protected(xs) == xs
  {
    assert xs[1..] == [];
  }

  lemma NumberedOn(xs: seq<Sent>, ys: seq<Sent>, key: Option<KeyConf>, sent: nat)
    requires Numbered(xs, key, sent) && Numbered(ys, key, sent + |xs|)
    ensures Numbered(xs + ys, key, sent)
  {
    hide LittleEndian;
  }

  lemma {:induction false} PacketsTrace(lacking: set<Proviso>, a: Stage, da: Address, n: nat) returns (b: Stage, xs: seq<Sent>)
    requires Safe(a.sta) && Sending(a.sta) && (FewFrames in lacking || a.sta.sent + n < PN_RANGE)
    ensures Trace(lacking, a, Packets(da, n), b, xs) && |xs| == n && Numbered(xs, TemporalKey(a.sta), a.sta.sent) && b.seen == a.seen
    ensures Safe(b.sta) && Sending(b.sta)
    ensures b.sta == a.sta.(pn := b.sta.pn, sent := a.sta.sent + n, dataSeq := b.sta.dataSeq, txSeq := b.sta.txSeq)
    decreases n
  {
    hide Safe, Trace, Numbered, Sending;
    if n == 0 {
      b, xs := a, [];
      NoEvents(lacking, a);
      NoneNumbered(TemporalKey(a.sta), a.sta.sent);
    } else {
      var m, first := PacketTrace(lacking, a, da);
      var rest;
      b, rest := PacketsTrace(lacking, m, da, n - 1);
      xs := first + rest;
      TraceOn(lacking, a, [Packet(da)], m, first, Packets(da, n - 1), b, rest);
      NumberedOn(first, rest, TemporalKey(a.sta), a.sta.sent);
    }
  }

  lemma NoneNumbered(key: Option<KeyConf>, sent: nat)
    ensures Numbered([], key, sent)
  {
  }

  lemma DisconnectTrace(lacking: set<Proviso>, a: Stage) returns (b: Stage)
    requires Safe(a.sta) && Sending(a.sta)
    ensures Trace(lacking, a, [Disconnect], b, []) && Safe(b.sta) && Resting(b.sta) && b.seen == a.seen && b.sta.mac == a.sta.mac
  {
    hide Safe, Trace, NoPn, NoPtk;
    Uneventful(lacking, a, Disconnect);
    StepKeeps(a.sta, Disconnect);
    b := Stage(Step(a.sta, Disconnect).sta, a.seen);
  }

  /** The thread runs over a connection, and the access point answers: back in the handshake with the same keys. */
  function Back(bss: Bss): seq<Event> {
    [ConnectFires] + Answers(bss)
  }

  lemma BackTrace(lacking: set<Proviso>, a: Stage) returns (b: Stage)
    requires Safe(a.sta) && Sending(a.sta) && a.sta.pending > 0 && a.sta.sent < PN_RANGE && NoThreadOverKey in lacking
    ensures Trace(lacking, a, Back(a.sta.target), b, []) && Safe(b.sta) && Shaking(b.sta) && b.seen == a.seen
    ensures b.sta.ptk == a.sta.ptk && b.sta.derived == a.sta.derived && b.sta.target == a.sta.target && b.sta.mac == a.sta.mac
  {
    hide Safe, Trace;
    var m := FireTrace(lacking, a);
    b := AnswersTrace(lacking, m);
    QuietOn(lacking, a, [ConnectFires], m, Answers(a.sta.target), b, []);
  }

  // Links from rest, with one packet each.

  function KeyedLink(x: Link, mac: Address, late: bool): seq<Event> {
    hide Joining, Packets;
    Joining(x, late) + [First(x)] + [Third(x, LinkPtk(x, mac)[..16])] + Packets(x.bss.bssid, 1)
  }

  /** The same without a message 1: message 3 comes under a key of zeros. */
  function BareLink(x: Link): seq<Event> {
    hide Joining, Packets;
    Joining(x, false) + [Third(x, Zeros(16))] + Packets(x.bss.bssid, 1)
  }

  function ZeroKey(): Option<KeyConf> {
    Some(KeyConf(Ccmp, 0, Zeros(16)))
  }

  function LinkKey(x: Link, mac: Address): Option<KeyConf> {
    Some(KeyConf(Ccmp, 0, LinkPtk(x, mac)[32..48]))
  }

  lemma KeyedLinkTrace(lacking: set<Proviso>, a: Stage, x: Link, late: bool) returns (b: Stage, xs: seq<Sent>)
    requires Safe(a.sta) && Resting(a.sta) && Fair(x)
    requires LinkPtk(x, a.sta.mac)[32..48] !in a.seen || FreshNonces in lacking
    ensures Trace(lacking, a, KeyedLink(x, a.sta.mac, late), b, xs) && |xs| == 1 && Numbered(xs, LinkKey(x, a.sta.mac), 0)
    ensures Safe(b.sta) && Sending(b.sta) && b.sta.ptk == LinkPtk(x, a.sta.mac) && b.sta.derived && b.sta.sent == 1
    ensures b.sta.mac == a.sta.mac && b.sta.target == x.bss && (late ==> b.sta.pending > 0)
  {
    hide Safe, Trace, Numbered, Joining, Packets, LinkPtk, CString, Pbkdf2, First, Third, Fair;
    var c := JoiningTrace(lacking, a, x, late);
    var d := Message1Trace(lacking, c, x);
    QuietOn(lacking, a, Joining(x, late), c, [First(x)], d, []);
    var e := Message3Trace(lacking, d, x);
    var m3 := Third(x, d.sta.ptk[..16]);
    QuietOn(lacking, a, Joining(x, late) + [First(x)], d, [m3], e, []);
    b, xs := PacketsTrace(lacking, e, x.bss.bssid, 1);
    QuietOn(lacking, a, Joining(x, late) + [First(x)] + [m3], e, Packets(x.bss.bssid, 1), b, xs);
  }

  lemma BareLinkTrace(lacking: set<Proviso>, a: Stage, x: Link) returns (b: Stage, xs: seq<Sent>)
    requires Safe(a.sta) && Resting(a.sta) && Fair(x) && Message1First in lacking
    ensures Trace(lacking, a, BareLink(x), b, xs) && |xs| == 1 && Numbered(xs, ZeroKey(), 0)
    ensures Safe(b.sta) && Sending(b.sta) && b.sta.mac == a.sta.mac
  {
    hide Safe, Trace, Numbered, Joining, Packets, CString, Pbkdf2, First, Third, Fair;
    var c := JoiningTrace(lacking, a, x, false);
    assert c.sta.ptk[..16] == Zeros(16) && c.sta.ptk[32..48] == Zeros(16);
    var e := Message3Trace(lacking, c, x);
    QuietOn(lacking, a, Joining(x, false), c, [Third(x, Zeros(16))], e, []);
    b, xs := PacketsTrace(lacking, e, x.bss.bssid, 1);
    QuietOn(lacking, a, Joining(x, false) + [Third(x, Zeros(16))], e, Packets(x.bss.bssid, 1), b, xs);
  }

  // One run for each proviso.

  /** The frames at these places share key and packet number. */
  ghost predicate Same(xs: seq<Sent>, i: nat, j: nat) {
    i < j < |xs| && xs[i].key.Some? && xs[i].key == xs[j].key && xs[i].content.pn == xs[j].content.pn
  }

  lemma SameNotApart(xs: seq<Sent>, i: nat, j: nat)
    requires Same(xs, i, j)
    ensures !Apart(xs)
  {
  }

  /** Two lists numbered under one key, a number in common. */
  lemma Common(xs: seq<Sent>, key: Option<KeyConf>, m: nat, ys: seq<Sent>, n: nat, j: nat)
    requires Numbered(xs, key, m) && |xs| == 1 && Numbered(ys, key, n) && j < |ys| && key.Some?
    requires (m + 1) % PN_RANGE == (n + j + 1) % PN_RANGE
    ensures Same(xs + ys, 0, 1 + j) && (xs + ys)[0].key == key
  {
    hide LittleEndian;
    Injective(xs[0].content.pn, ys[j].content.pn);
    assert (xs + ys)[0] == xs[0] && (xs + ys)[1 + j] == ys[j];
  }

  /** The first proviso: the connect thread runs late, over the connection it was queued for. The access point lets the
      station in again and sends message 3 again. */
  function ThreadRun(x: Link, mac: Address): seq<Event> {
    hide KeyedLink, Packets, LinkPtk;
    [Start(true, true, true)] + KeyedLink(x, mac, true) + Back(x.bss) + [Third(x, LinkPtk(x, mac)[..16])] + Packets(x.bss.bssid, 1)
  }

  lemma ReinstallationRepeats(s: Sta, x: Link)
    requires Initial(s) && Fair(x)
    ensures var es := ThreadRun(x, s.mac); var xs := Protected(Run(s, es).sent);
      && (forall p :: p != NoThreadOverKey ==> MeetsRun(p, s, es, {}))
      && |xs| == 2 && Same(xs, 0, 1) && xs[0].key == LinkKey(x, s.mac)
  {
    hide Safe, Trace, Numbered, KeyedLink, Packets, LinkPtk, Run, MeetsRun, Third, Fair, Same, Protected;
    var lacking := {NoThreadOverKey};
    var a, key := Stage(s, {}), LinkKey(x, s.mac);
    var start, m3 := [Start(true, true, true)], Third(x, LinkPtk(x, s.mac)[..16]);
    var b := StartTrace(lacking, s);
    SafeAt(lacking, a, start, b, []);
    var c, xs := KeyedLinkTrace(lacking, b, x, true);
    QuietOn(lacking, a, start, b, KeyedLink(x, s.mac, true), c, xs);
    var d := BackTrace(lacking, c);
    QuietAfter(lacking, a, start + KeyedLink(x, s.mac, true), c, xs, Back(x.bss), d);
    var e := Message3Trace(lacking, d, x);
    QuietAfter(lacking, a, start + KeyedLink(x, s.mac, true) + Back(x.bss), d, xs, [m3], e);
    var f, ys := PacketsTrace(lacking, e, x.bss.bssid, 1);
    TraceOn(lacking, a, start + KeyedLink(x, s.mac, true) + Back(x.bss) + [m3], e, xs, Packets(x.bss.bssid, 1), f, ys);
    Common(xs, key, 0, ys, 0, 0);
    TraceMeans(lacking, a, ThreadRun(x, s.mac), f, xs + ys);
  }

  lemma SafeAt(lacking: set<Proviso>, a: Stage, es: seq<Event>, b: Stage, xs: seq<Sent>)
    requires Trace(lacking, a, es, b, xs)
    ensures Safe(b.sta)
  {
    hide Safe;
  }

  lemma QuietAfter(lacking: set<Proviso>, a: Stage, es: seq<Event>, b: Stage, xs: seq<Sent>, fs: seq<Event>, c: Stage)
    requires Trace(lacking, a, es, b, xs) && Trace(lacking, b, fs, c, [])
    ensures Trace(lacking, a, es + fs, c, xs)
  {
    hide Trace;
    TraceOn(lacking, a, es, b, xs, fs, c, []);
    assert xs + [] == xs;
  }

  lemma TraceMeans(lacking: set<Proviso>, a: Stage, es: seq<Event>, b: Stage, xs: seq<Sent>)
    requires Trace(lacking, a, es, b, xs)
    ensures Protected(Run(a.sta, es).sent) == xs && forall p :: p !in lacking ==> MeetsRun(p, a.sta, es, a.seen)
  {
    hide Run, Protected, MeetsRun, SeenRun, Safe;
  }

  /** The second: the nonces of an earlier connection come again. */
  function NonceRun(x: Link, mac: Address): seq<Event> {
    hide KeyedLink;
    [Start(true, true, true)] + KeyedLink(x, mac, false) + [Disconnect] + KeyedLink(x, mac, false)
  }

  lemma NoncesRepeat(s: Sta, x: Link)
    requires Initial(s) && Fair(x)
    ensures var es := NonceRun(x, s.mac); var xs := Protected(Run(s, es).sent);
      && (forall p :: p != FreshNonces ==> MeetsRun(p, s, es, {}))
      && |xs| == 2 && Same(xs, 0, 1) && xs[0].key == LinkKey(x, s.mac)
  {
    hide Safe, Trace, Numbered, KeyedLink, LinkPtk, Run, MeetsRun, Fair, Same, Protected;
    var lacking := {FreshNonces};
    var a, key := Stage(s, {}), LinkKey(x, s.mac);
    var start, link := [Start(true, true, true)], KeyedLink(x, s.mac, false);
    var b := StartTrace(lacking, s);
    SafeAt(lacking, a, start, b, []);
    var c, xs := KeyedLinkTrace(lacking, b, x, false);
    QuietOn(lacking, a, start, b, link, c, xs);
    var d := DisconnectTrace(lacking, c);
    QuietAfter(lacking, a, start + link, c, xs, [Disconnect], d);
    var e, ys := KeyedLinkTrace(lacking, d, x, false);
    TraceOn(lacking, a, start + link + [Disconnect], d, xs, link, e, ys);
    Common(xs, key, 0, ys, 0, 0);
    TraceMeans(lacking, a, NonceRun(x, s.mac), e, xs + ys);
  }

  /** The third: two connections are made by a message 3 without a message 1, both under a key of zeros. No thread runs
      over a key, and no nonce is used at all. */
  function BareRun(x: Link): seq<Event> {
    hide BareLink;
    [Start(true, true, true)] + BareLink(x) + [Disconnect] + BareLink(x)
  }

  lemma ZeroKeyRepeats(s: Sta, x: Link)
    requires Initial(s) && Fair(x)
    ensures var es := BareRun(x); var xs := Protected(Run(s, es).sent);
      && (forall p :: p != Message1First ==> MeetsRun(p, s, es, {}))
      && |xs| == 2 && Same(xs, 0, 1) && xs[0].key == ZeroKey()
  {
    hide Safe, Trace, Numbered, BareLink, Run, MeetsRun, Fair, Same, Protected;
    var lacking := {Message1First};
    var a := Stage(s, {});
    var start := [Start(true, true, true)];
    var b := StartTrace(lacking, s);
    SafeAt(lacking, a, start, b, []);
    var c, xs := BareLinkTrace(lacking, b, x);
    QuietOn(lacking, a, start, b, BareLink(x), c, xs);
    var d := DisconnectTrace(lacking, c);
    QuietAfter(lacking, a, start + BareLink(x), c, xs, [Disconnect], d);
    var e, ys := BareLinkTrace(lacking, d, x);
    TraceOn(lacking, a, start + BareLink(x) + [Disconnect], d, xs, BareLink(x), e, ys);
    Common(xs, ZeroKey(), 0, ys, 0, 0);
    TraceMeans(lacking, a, BareRun(x), e, xs + ys);
  }

  /** The fourth: 2 to the 48th frames after the first. */
  function LongRun(x: Link, mac: Address): seq<Event> {
    hide KeyedLink, Packets;
    [Start(true, true, true)] + KeyedLink(x, mac, false) + Packets(x.bss.bssid, PN_RANGE)
  }

  lemma NumbersRunOut(s: Sta, x: Link)
    requires Initial(s) && Fair(x)
    ensures var es := LongRun(x, s.mac); var xs := Protected(Run(s, es).sent);
      && (forall p :: p != FewFrames ==> MeetsRun(p, s, es, {}))
      && |xs| == PN_RANGE + 1 && Same(xs, 0, PN_RANGE) && xs[0].key == LinkKey(x, s.mac)
  {
    hide Safe, Trace, Numbered, KeyedLink, Packets, LinkPtk, Run, MeetsRun, Fair, Same, Protected;
    var lacking := {FewFrames};
    var a, key := Stage(s, {}), LinkKey(x, s.mac);
    var start, link := [Start(true, true, true)], KeyedLink(x, s.mac, false);
    var b := StartTrace(lacking, s);
    SafeAt(lacking, a, start, b, []);
    var c, xs := KeyedLinkTrace(lacking, b, x, false);
    QuietOn(lacking, a, start, b, link, c, xs);
    var d, ys := PacketsTrace(lacking, c, x.bss.bssid, PN_RANGE);
    TraceOn(lacking, a, start + link, c, xs, Packets(x.bss.bssid, PN_RANGE), d, ys);
    Common(xs, key, 0, ys, 1, PN_RANGE - 1);
    TraceMeans(lacking, a, LongRun(x, s.mac), d, xs + ys);
  }

  /** This run breaks no other proviso, and packet numbers come back under a key. */
  ghost predicate RepeatsWithout(p: Proviso, s: Sta, es: seq<Event>) {
    (forall q :: q != p ==> MeetsRun(q, s, es, {})) && !Apart(Protected(Run(s, es).sent))
  }

  /** None of the provisos can be dropped. */
  lemma EachProvisoNeeded(s: Sta, p: Proviso) returns (es: seq<Event>)
    requires Initial(s)
    ensures RepeatsWithout(p, s, es)
  {
    hide Run, MeetsRun, Apart, Protected, ThreadRun, NonceRun, BareRun, LongRun, LinkKey, ZeroKey, Initial;
    var x := AnyLink();
    match p {
      case NoThreadOverKey =>
        ReinstallationRepeats(s, x);
        es := ThreadRun(x, s.mac);
      case FreshNonces =>
        NoncesRepeat(s, x);
        es := NonceRun(x, s.mac);
      case Message1First =>
        ZeroKeyRepeats(s, x);
        es := BareRun(x);
      case FewFrames =>
        NumbersRunOut(s, x);
        es := LongRun(x, s.mac);
    }
    SameNotApart(Protected(Run(s, es).sent), 0, if p == FewFrames then PN_RANGE else 1);
  }

  lemma AnyLink() returns (x: Link)
    ensures Fair(x)
  {
    var f1 := KeyFrame(2, 0x008a, Zeros(8), Zeros(32), Zeros(32), []);
    x := Link(Bss(Zeros(6), [], Ccmp, Ccmp), [], f1, f1.(info := 0x01ca), Zeros(32));
    assert 0x008a as bv16 & 0x0088 == 0x0088 && 0x008a as bv16 & 0x0100 == 0 && 0x01ca as bv16 & 0x01c8 == 0x01c8;
  }

  ghost predicate KeepsTo(kept: set<Proviso>, s: Sta, es: seq<Event>) {
    forall p :: p in kept ==> MeetsRun(p, s, es, {})
  }

  /** Keeping to these is enough for packet numbers not to come back under a key. */
  ghost predicate Suffice(kept: set<Proviso>, s: Sta) {
    forall es :: KeepsTo(kept, s, es) ==> Apart(Protected(Run(s, es).sent))
  }

  /** Over runs from power-up: a choice of provisos is enough if and only if it is all four. */
  lemma SufficesExactlyIfAll(s: Sta, kept: set<Proviso>)
    requires Initial(s)
    ensures Suffice(kept, s) <==> forall p: Proviso :: p in kept
  {
    hide Run, MeetsRun, Apart, Protected, Initial;
    if p: Proviso :| p !in kept {
      var es := EachProvisoNeeded(s, p);
      assert KeepsTo(kept, s, es);
    } else {
      forall es | KeepsTo(kept, s, es)
        ensures Apart(Protected(Run(s, es).sent))
      {
        NoPacketNumberTwice(s, es);
      }
    }
  }

  // One connection.

  lemma NoConnects(bss: Bss, n: nat)
    ensures SameConnection(Packets(bss.bssid, n)) && SameConnection(Back(bss))
  {
    if n > 0 {
      NoConnects(bss, n - 1);
      var es := Packets(bss.bssid, n);
      assert es == [Packet(bss.bssid)] + Packets(bss.bssid, n - 1);
    }
  }

  /** Some run without a new connect command, and with fewer than 2 to the 48th frames, repeats a packet number. */
  ghost predicate CanRepeat(s: Sta) {
    exists es :: Repeats(s, es)
  }

  ghost predicate Repeats(s: Sta, es: seq<Event>) {
    SameConnection(es) && MeetsRun(FewFrames, s, es, {}) && !Apart(Protected(Run(s, es).sent))
  }

  /** A packet; the thread runs, and the access point answers and sends message 3 again; packets up to the number
      of the first. */
  function Reinstallation(s: Sta, x: Link): seq<Event> {
    hide Packets;
    Packets(s.target.bssid, 1) + Back(s.target) + [Third(x, s.ptk[..16])] + Packets(s.target.bssid, s.sent + 1)
  }

  lemma ReinstallationInside(s: Sta, x: Link)
    requires Safe(s) && Sending(s) && s.sent + 1 < PN_RANGE && s.pending > 0 && Fair(x)
    ensures Repeats(s, Reinstallation(s, x))
  {
    hide Safe, Trace, Numbered, Packets, Run, MeetsRun, Fair, Same, Protected, Apart, Third, Back;
    var lacking := {NoThreadOverKey, Message1First};
    var a, bssid, m3 := Stage(s, {}), s.target.bssid, Third(x, s.ptk[..16]);
    var b, xs := PacketsTrace(lacking, a, bssid, 1);
    var c := BackTrace(lacking, b);
    QuietAfter(lacking, a, Packets(bssid, 1), b, xs, Back(s.target), c);
    var d := Message3Trace(lacking, c, x);
    QuietAfter(lacking, a, Packets(bssid, 1) + Back(s.target), c, xs, [m3], d);
    var e, ys := PacketsTrace(lacking, d, bssid, s.sent + 1);
    TraceOn(lacking, a, Packets(bssid, 1) + Back(s.target) + [m3], d, xs, Packets(bssid, s.sent + 1), e, ys);
    Common(xs, TemporalKey(s), s.sent, ys, 0, s.sent);
    SameNotApart(xs + ys, 0, 1 + s.sent);
    TraceMeans(lacking, a, Reinstallation(s, x), e, xs + ys);
    NoConnects(s.target, 1);
    NoConnects(s.target, s.sent + 1);
    NotConnect(x, s.ptk[..16]);
    assert Reinstallation(s, x) == Packets(bssid, 1) + Back(s.target) + [m3] + Packets(bssid, s.sent + 1);
  }

  lemma NotConnect(x: Link, kck: bytes)
    ensures !Connects(Third(x, kck))
  {
  }

  /** Exactly when a connected WPA2 station that can send one more packet, its pairwise key derived or not, can come to
      repeat a packet number before it connects anew: if its connect thread has still to run. */
  lemma RepeatsExactlyIfPending(s: Sta)
    requires Safe(s) && s.state == Connected && s.wpa2 && s.peer && s.sent + 1 < PN_RANGE
    ensures CanRepeat(s) <==> s.pending > 0
  {
    hide Run, MeetsRun, Protected, Apart, LittleEndian, SameConnection, Reinstallation;
    if s.pending > 0 {
      var x := AnyLink();
      ReinstallationInside(s, x);
    } else {
      forall es
        ensures !Repeats(s, es)
      {
        if Repeats(s, es) {
          OneConnectionApart(s, es);
        }
      }
    }
  }
}
