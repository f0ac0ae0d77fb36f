/** What the station sends, as its receiver reads it. */
module OnAir {
  import opened Bytes
  import opened Options
  import opened Amsdu
  import opened DataFrame
  import opened StationSpec
  import opened StationSafety
  import opened CcmpNumbers
  import opened AirFormat

  // The sequence number.

  /** The upper twelve bits of the sequence control hold the number, the lower four are 0. */
  lemma SeqRead(n: nat)
    ensures SeqCtrl(n) < 0x1_0000 && SeqCtrl(n) / 16 == n % 4096 && SeqCtrl(n) % 16 == 0
  {
  }

  // Data frames.

  /** Whether a frame goes out: attached, with a peer record, of at most 2048 bytes, and with memory for it. */
  predicate GoesOut(s: Sta, payload: bytes, memory: bool, copied: bool) {
    s.attached && s.peer && 14 + |payload| <= 2048 && memory && (copied || |payload| == 0)
  }

  /** How the receiver finds the frame the station sends next. */
  ghost predicate ReadsAs(s: Sta, x: Sent, da: Address, etherType: EtherType, payload: bytes) {
    hide Encapsulate, LittleEndian;
    var f := Encapsulate(x.content);
    var qos := s.target.cipher != Tkip;
    var protected := s.wpa2 && s.pairwise.Some? && etherType != PAE;
    var n := if qos then 26 else 24;
    && |f| >= 24
    && AirFc(f) == (if qos then 0x0188 else 0x0108) | (if protected then 0x4000 else 0)
    && f[4..10] == s.target.bssid && f[10..16] == s.mac && f[16..22] == da
    && (qos ==> |f| >= 26 && f[24] == 0 && f[25] == 0)
    && AirSeq(f) == (if qos then s.dataSeq else s.txSeq) % 4096 && AirFragment(f) == 0
    && x.key == (if protected then s.pairwise else None)
    && (protected ==>
        |f| >= n + 8 && AirPn(AirCcmp(f, n)) == (LittleEndian(s.pn) + 1) % PN_RANGE && ExtIvSet(AirCcmp(f, n))
        && AirKeyId(AirCcmp(f, n)) == s.pairwise.value.index & 0x3)
    && Deliver(f, true) == (if etherType == PAE then DataFrame.Eapol(payload) else Frames([Ethernet(s.target.bssid, da, etherType, payload)]))
  }

  /** The next frame has the next numbers. */
  ghost predicate Advanced(s: Sta, t: Sta, protected: bool) {
    hide LittleEndian;
    && LittleEndian(t.pn) == (if protected then (LittleEndian(s.pn) + 1) % PN_RANGE else LittleEndian(s.pn))
    && (if s.target.cipher != Tkip then t.dataSeq == (s.dataSeq + 1) % 0x1_0000 && t.txSeq == s.txSeq
        else t.txSeq == (s.txSeq + 1) % 0x1_0000 && t.dataSeq == s.dataSeq)
  }

  /** Exactly when a frame goes out, and how it is read at the other end. */
  lemma SentAndRead(s: Sta, da: Address, etherType: EtherType, payload: bytes, memory: bool, copied: bool)
    ensures var o := TxData(s, da, etherType, payload, memory, copied);
      if GoesOut(s, payload, memory, copied) then
        |o.sent| == 1 && ReadsAs(s, o.sent[0], da, etherType, payload) && Advanced(s, o.sta, s.wpa2 && s.pairwise.Some? && etherType != PAE)
      else o.sent == []
  {
    hide Encapsulate, LittleEndian, Incremented, SeqCtrl, Deliver, AirPn, AirKeyId, ExtIvSet, AirCcmp, AirFc;
    hide GoesOut, ReadsAs, Advanced;
    SentIs(s, da, etherType, payload, memory, copied);
    if GoesOut(s, payload, memory, copied) {
      var protected := Protects(s, etherType);
      SentReads(s, DataFrameOf(Counted(s, protected), NextSeqCtrl(s), da, etherType, payload), da, etherType, payload);
      CountedAdvances(s, protected);
    }
  }

  lemma SentIs(s: Sta, da: Address, etherType: EtherType, payload: bytes, memory: bool, copied: bool)
    ensures var o := TxData(s, da, etherType, payload, memory, copied);
      if GoesOut(s, payload, memory, copied)
      then o == Outcome(Counted(s, Protects(s, etherType)),
                        [DataFrameOf(Counted(s, Protects(s, etherType)), NextSeqCtrl(s), da, etherType, payload)])
      else o.sent == []
  {
    hide Counted, DataFrameOf, NextSeqCtrl, Protects;
  }

  lemma CountedAdvances(s: Sta, protected: bool)
    ensures Advanced(s, Counted(s, protected), protected)
  {
    hide LittleEndian, Incremented;
    IncrementAddsOne(s.pn);
    LittleEndianBound(s.pn);
    SixBytes();
  }

  lemma SentReads(s: Sta, x: Sent, da: Address, etherType: EtherType, payload: bytes)
    requires x == DataFrameOf(Counted(s, Protects(s, etherType)), NextSeqCtrl(s), da, etherType, payload)
    ensures ReadsAs(s, x, da, etherType, payload)
  {
    hide Encapsulate, LittleEndian, Incremented, SeqCtrl, Deliver, AirPn, AirKeyId, ExtIvSet, AirCcmp, AirFc;
    var c := x.content;
    HeaderRead(c);
    if c.key.Some? {
      CcmpRead(c);
    }
    IncrementAddsOne(s.pn);
    LittleEndianBound(s.pn);
    SixBytes();
    SeqRead(if UsesQos(s) then s.dataSeq else s.txSeq);
    EncapsulationRoundTrip(c, true);
  }

  // Packet numbers on the air, over runs.

  /** The packet number the receiver reads from a protected frame. */
  function PnOf(x: Sent): nat {
    hide Encapsulate, AirPn;
    var f, n := Encapsulate(x.content), if x.content.qos then 26 else 24;
    if n + 8 <= |f| then AirPn(AirCcmp(f, n)) else 0
  }

  lemma PnRead(x: Sent)
    requires x.content.key.Some?
    ensures PnOf(x) == LittleEndian(x.content.pn)
  {
    hide Encapsulate, AirPn, LittleEndian;
    CcmpRead(x.content);
  }

  lemma ProtectedIn(xs: seq<Sent>, x: Sent)
    requires x in Protected(xs)
    ensures x in xs && x.key.Some?
  {
  }

  lemma {:induction false} RunMarked(s: Sta, es: seq<Event>)
    requires Safe(s)
    ensures forall x :: x in Protected(Run(s, es).sent) ==> x.content.key.Some?
    decreases |es|
  {
    hide Step, Safe, Protected, LittleEndian;
    if |es| == 0 {
      NothingForward(s);
    } else {
      var o := Step(s, es[0]);
      StepKeeps(s, es[0]);
      RunMarked(o.sta, es[1..]);
      ProtectedConcat(o.sent, Run(o.sta, es[1..]).sent);
      forall x | x in Protected(o.sent)
        ensures x.content.key.Some?
      {
        ProtectedIn(o.sent, x);
      }
    }
  }

  /** On the air: the packet numbers of a run are those of the frames within their installation, modulo 2 to the 48th. */
  lemma PacketNumbersOnAir(s: Sta, es: seq<Event>)
    requires Safe(s)
    ensures var xs := Protected(Run(s, es).sent);
      && (forall i :: 0 <= i < |xs| ==> PnOf(xs[i]) == xs[i].ordinal % PN_RANGE)
      && (forall i, j :: 0 <= i < j < |xs| ==> Before(Of(xs[i]), Of(xs[j])))
  {
    hide Run, Safe, Protected, LittleEndian, PnOf, At, Before;
    PacketNumbers(s, es);
    RunMarked(s, es);
    var xs := Protected(Run(s, es).sent);
    forall i | 0 <= i < |xs|
      ensures PnOf(xs[i]) == xs[i].ordinal % PN_RANGE
    {
      assert xs[i] in xs;
      PnRead(xs[i]);
    }
  }

  /** On the air: in every run from power-up that keeps the four provisos no two frames under one key show the same packet
      number. */
  lemma NoPacketNumberTwiceOnAir(s: Sta, es: seq<Event>)
    requires Initial(s) && forall p :: MeetsRun(p, s, es, {})
    ensures var xs := Protected(Run(s, es).sent);
      forall i, j :: 0 <= i < j < |xs| ==> xs[i].key != xs[j].key || PnOf(xs[i]) != PnOf(xs[j])
  {
    hide Run, MeetsRun, Protected, LittleEndian, PnOf, Initial;
    NoPacketNumberTwice(s, es);
    InitialSafe(s);
    RunMarked(s, es);
    var xs := Protected(Run(s, es).sent);
    forall i, j | 0 <= i < j < |xs|
      ensures xs[i].key != xs[j].key || PnOf(xs[i]) != PnOf(xs[j])
    {
      assert xs[i] in xs && xs[j] in xs;
      PnRead(xs[i]);
      PnRead(xs[j]);
      Injective(xs[i].content.pn, xs[j].content.pn);
    }
  }

  lemma InitialSafe(s: Sta)
    requires Initial(s)
    ensures Safe(s)
  {
    hide LittleEndian, NoPn, NoPtk;
    ZeroPn();
  }
}
