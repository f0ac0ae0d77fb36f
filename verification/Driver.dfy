/** The connection together with the reorder windows. */
module Driver {
  import opened Bytes
  import opened Options
  import opened StationSpec
  import opened Links
  import ReorderRuns
  import ReorderSpec
  import StationSafety
  import KeyDerivation
  import opened Management

  /** The connection and the receive path it tears down. */
  datatype Whole = Whole(sta: Sta, path: ReorderRuns.Path)

  /** What can happen to both: events of the connection, block-ack agreements made and ended by the access point,
      numbered data frames, and the hole timer. */
  datatype Happening =
    | OfStation(event: Event)
    | Agreed(tid: nat, ssn: nat, bufSize: nat, memory: bool)
    | Ended(tid: nat)
    | Data(tid: nat, frame: ReorderSpec.Frame)
    | HoleTimer

  /** Releasing the peer record tears all windows down, and so does a deauthentication; releasing does nothing
      when there is no record. */
  predicate TearsDown(s: Sta, e: Event) {
    hide Step, EndsConnection;
    (s.peer && !Step(s, e).sta.peer) || (e.Deauth? && EndsConnection(s, e.addr1, e.addr2, e.addr3))
  }

  function Next(s: Sta, h: Happening): Sta {
    hide Step;
    if h.OfStation? then Step(s, h.event).sta else s
  }

  /** What reaches the windows: agreements are looked at only when connected, data frames when they may be received. */
  function Passed(s: Sta, h: Happening): seq<ReorderRuns.Event> {
    hide TearsDown;
    match h
    case OfStation(e) => if TearsDown(s, e) then [ReorderRuns.TeardownAll] else []
    case Agreed(tid, ssn, bufSize, memory) => if s.state == Connected then [ReorderRuns.Setup(tid, ssn, bufSize, memory)] else []
    case Ended(tid) => if s.state == Connected then [ReorderRuns.Teardown(tid)] else []
    case Data(tid, frame) => if MayReceive(s) then [ReorderRuns.Receive(tid, frame)] else []
    case HoleTimer => [ReorderRuns.TimerFires]
  }

  function WholeStep(w: Whole, h: Happening): (t: Whole)
    requires ReorderRuns.GoodPath(w.path)
    ensures ReorderRuns.GoodPath(t.path)
  {
    hide Next, Passed, ReorderRuns.Run, ReorderRuns.GoodPath;
    Whole(Next(w.sta, h), ReorderRuns.Run(w.path, Passed(w.sta, h)).path)
  }

  function WholeRun(w: Whole, hs: seq<Happening>): (t: Whole)
    requires ReorderRuns.GoodPath(w.path)
    ensures ReorderRuns.GoodPath(t.path)
    decreases |hs|
  {
    hide WholeStep, ReorderRuns.GoodPath;
    if |hs| == 0 then w else WholeRun(WholeStep(w, hs[0]), hs[1..])
  }

  /** The connection's part of a run, and what of it reaches the windows. */
  function StationEvents(hs: seq<Happening>): seq<Event> {
    if |hs| == 0 then [] else (if hs[0].OfStation? then [hs[0].event] else []) + StationEvents(hs[1..])
  }

  function PathEvents(s: Sta, hs: seq<Happening>): seq<ReorderRuns.Event>
    decreases |hs|
  {
    hide Next, Passed;
    if |hs| == 0 then [] else Passed(s, hs[0]) + PathEvents(Next(s, hs[0]), hs[1..])
  }

  function HeldFrames(w: Whole): nat {
    ReorderRuns.AllStored(w.path.windows)
  }

  // Each part of a run of the whole is a run of that part, so what holds over every run of either holds here.

  lemma {:induction false} PathConcat(p: ReorderRuns.Path, es: seq<ReorderRuns.Event>, fs: seq<ReorderRuns.Event>)
    requires ReorderRuns.GoodPath(p)
    ensures ReorderRuns.Run(p, es + fs).path == ReorderRuns.Run(ReorderRuns.Run(p, es).path, fs).path
    decreases |es|
  {
    hide ReorderRuns.Step, ReorderRuns.GoodPath;
    if |es| == 0 {
      assert es + fs == fs;
    } else {
      ReorderRuns.StepGood(p, es[0]);
      assert (es + fs)[0] == es[0] && (es + fs)[1..] == es[1..] + fs;
      PathConcat(ReorderRuns.Step(p, es[0]).path, es[1..], fs);
    }
  }

  lemma StationOn(s: Sta, h: Happening, hs: seq<Happening>)
    ensures StationSafety.Run(s, StationEvents([h] + hs)).sta == StationSafety.Run(Next(s, h), StationEvents(hs)).sta
  {
    hide Step;
    assert ([h] + hs)[1..] == hs;
    if h.OfStation? {
      assert ([h.event] + StationEvents(hs))[1..] == StationEvents(hs);
    } else {
      assert [] + StationEvents(hs) == StationEvents(hs);
    }
  }

  lemma {:induction false} RunOfBoth(w: Whole, hs: seq<Happening>)
    requires ReorderRuns.GoodPath(w.path)
    ensures WholeRun(w, hs).sta == StationSafety.Run(w.sta, StationEvents(hs)).sta
    ensures WholeRun(w, hs).path == ReorderRuns.Run(w.path, PathEvents(w.sta, hs)).path
    decreases |hs|
  {
    hide Next, Passed, Step, ReorderRuns.Step, ReorderRuns.GoodPath;
    if |hs| > 0 {
      RunOfBoth(WholeStep(w, hs[0]), hs[1..]);
      StationOn(w.sta, hs[0], hs[1..]);
      assert [hs[0]] + hs[1..] == hs;
      PathConcat(w.path, Passed(w.sta, hs[0]), PathEvents(Next(w.sta, hs[0]), hs[1..]));
    }
  }

  // One event.

  lemma TornDown(w: Whole, e: Event)
    requires ReorderRuns.GoodPath(w.path) && TearsDown(w.sta, e)
    ensures NoWindows(WholeStep(w, OfStation(e)).path) && HeldFrames(WholeStep(w, OfStation(e))) == 0
  {
    hide TearsDown, ReorderRuns.GoodPath, ReorderRuns.AllStored, ReorderRuns.AllHeld, Step;
    PathOne(w.path, ReorderRuns.TeardownAll);
    ReorderRuns.NoWindows(ReorderRuns.Step(w.path, ReorderRuns.TeardownAll).path.windows);
  }

  lemma PathOne(p: ReorderRuns.Path, e: ReorderRuns.Event)
    requires ReorderRuns.GoodPath(p)
    ensures ReorderRuns.Run(p, [e]).path == ReorderRuns.Step(p, e).path && ReorderRuns.Run(p, []).path == p
  {
    hide ReorderRuns.Step, ReorderRuns.GoodPath;
    assert [e][1..] == [];
  }

  lemma PathNone(w: Whole, h: Happening)
    requires ReorderRuns.GoodPath(w.path) && Passed(w.sta, h) == []
    ensures WholeStep(w, h).path == w.path
  {
    hide Passed, ReorderRuns.GoodPath, ReorderRuns.Step;
  }

  lemma DropsPeer(s: Sta)
    ensures !ReleasePeer(ClearKeys(s)).peer && (s.attached ==> !Disconnected(s).peer)
  {
    hide NoPn, NoPtk;
  }

  /** A disconnect command leaves no frame held if there was a peer record; without one (its allocation can fail) every
      frame held stays held. */
  lemma DisconnectHolds(w: Whole)
    requires ReorderRuns.GoodPath(w.path) && w.sta.state != Idle && w.sta.attached
    ensures HeldFrames(WholeStep(w, OfStation(Disconnect))) == if w.sta.peer then 0 else HeldFrames(w)
  {
    hide ReorderRuns.GoodPath, ReorderRuns.AllStored, Disconnected, WholeStep;
    DropsPeer(w.sta);
    if w.sta.peer {
      TornDown(w, Disconnect);
    } else {
      PathNone(w, OfStation(Disconnect));
    }
  }

  /** A deauthentication that ends the connection leaves none held, record or not. */
  lemma DeauthHoldsNothing(w: Whole, addr1: Address, addr2: Address, addr3: Address)
    requires ReorderRuns.GoodPath(w.path) && EndsConnection(w.sta, addr1, addr2, addr3)
    ensures HeldFrames(WholeStep(w, OfStation(Deauth(addr1, addr2, addr3)))) == 0
  {
    hide Step, ReorderRuns.GoodPath, ReorderRuns.AllStored, EndsConnection, WholeStep;
    TornDown(w, Deauth(addr1, addr2, addr3));
  }

  // Runs: no frame of one connection is handed up in the next, provided every association made its peer record.

  predicate NoWindows(p: ReorderRuns.Path) {
    forall t :: 0 <= t < |p.windows| ==> p.windows[t].None?
  }

  /** Every association that comes made a peer record. */
  predicate MadeRecord(h: Happening) {
    h.OfStation? && h.event.AssocResponse? ==> h.event.memory
  }

  ghost predicate AllMadeRecords(hs: seq<Happening>) {
    hide MadeRecord;
    forall i :: 0 <= i < |hs| ==> MadeRecord(hs[i])
  }

  /** Where the access point has taken the station in, there is a peer record; where there is none, no window. */
  ghost predicate Tied(w: Whole) {
    && ReorderRuns.GoodPath(w.path) && StationSafety.Safe(w.sta)
    && (Joined(w.sta) ==> w.sta.peer) && (!w.sta.peer ==> NoWindows(w.path))
  }

  lemma RecordKept(s: Sta, e: Event)
    requires StationSafety.Safe(s) && (Joined(s) ==> s.peer) && MadeRecord(OfStation(e))
    ensures var t := Step(s, e).sta; Joined(t) ==> t.peer
  {
    hide StationSafety.Safe, Connecting, OnAssoc, Fire;
    if e.Connect? {
      ConnectOnward(s, e);
    } else if e.AssocResponse? {
      AssocOnward(s, e.addr3, e.body, e.memory);
    } else if e.ConnectFires? {
      FireOnward(s);
    } else {
      hide Step;
      StepOnward(s, e);
    }
  }

  lemma TiedStation(w: Whole, e: Event)
    requires Tied(w) && MadeRecord(OfStation(e))
    ensures Tied(WholeStep(w, OfStation(e)))
  {
    hide Step, ReorderRuns.GoodPath, StationSafety.Safe, Joined, MadeRecord, NoWindows;
    StationSafety.StepKeeps(w.sta, e);
    RecordKept(w.sta, e);
    if TearsDown(w.sta, e) {
      TornDown(w, e);
    } else {
      hide WholeStep;
      PathNone(w, OfStation(e));
      StationNext(w, e);
    }
  }

  lemma StationNext(w: Whole, e: Event)
    requires ReorderRuns.GoodPath(w.path)
    ensures WholeStep(w, OfStation(e)).sta == Step(w.sta, e).sta
  {
    hide Step, ReorderRuns.GoodPath;
  }

  lemma StaysWithoutWindows(p: ReorderRuns.Path, e: ReorderRuns.Event)
    requires ReorderRuns.GoodPath(p) && NoWindows(p) && !e.Setup?
    ensures NoWindows(ReorderRuns.Step(p, e).path)
  {
    hide ReorderSpec.Input, ReorderSpec.Good;
    if e.TimerFires? {
      NothingFlushed(p.windows, 0, ReorderSpec.SLOTS);
    }
  }

  lemma {:induction false} NothingFlushed(ws: seq<Option<ReorderSpec.Window>>, tid: nat, room: nat)
    requires tid <= |ws| && forall t :: 0 <= t < |ws| ==> ws[t].None?
    ensures ReorderRuns.FlushAll(ws, tid, room).0 == ws
    decreases |ws| - tid
  {
    if tid < |ws| {
      NothingFlushed(ws, tid + 1, room);
    }
  }

  lemma TiedPath(w: Whole, h: Happening)
    requires Tied(w) && !h.OfStation?
    ensures Tied(WholeStep(w, h))
  {
    hide ReorderRuns.Step, ReorderRuns.GoodPath, StationSafety.Safe, NoWindows;
    var es := Passed(w.sta, h);
    if |es| == 0 {
      PathNone(w, h);
    } else {
      assert es == [es[0]];
      PathOne(w.path, es[0]);
      if !w.sta.peer {
        StaysWithoutWindows(w.path, es[0]);
      }
    }
  }

  lemma {:induction false} RunTied(w: Whole, hs: seq<Happening>)
    requires Tied(w) && AllMadeRecords(hs)
    ensures Tied(WholeRun(w, hs))
    decreases |hs|
  {
    hide WholeStep, Tied, MadeRecord;
    if |hs| > 0 {
      assert MadeRecord(hs[0]);
      assert ReorderRuns.GoodPath(w.path) by { TiedGood(w); }
      if hs[0].OfStation? {
        TiedStation(w, hs[0].event);
      } else {
        TiedPath(w, hs[0]);
      }
      RunTied(WholeStep(w, hs[0]), hs[1..]);
    }
  }

  lemma TiedGood(w: Whole)
    requires Tied(w)
    ensures ReorderRuns.GoodPath(w.path)
  {
  }

  lemma InitialGood()
    ensures ReorderRuns.GoodPath(ReorderRuns.INITIAL)
  {
    hide ReorderRuns.AllStored;
    ReorderRuns.NoWindows(ReorderRuns.INITIAL.windows);
  }

  /** A station and a receive path without windows. */
  function AtPowerUp(s: Sta): (w: Whole)
    ensures ReorderRuns.GoodPath(w.path)
  {
    InitialGood();
    Whole(s, ReorderRuns.INITIAL)
  }

  lemma PoweredUpTied(s: Sta)
    requires StationSafety.Initial(s)
    ensures Tied(AtPowerUp(s))
  {
    hide NoPn, NoPtk, ReorderRuns.GoodPath;
    StationSafety.ZeroPn();
  }

  /** A connect command that gets as far as its target leaves no frame held if there was a peer record, and all of
      them if there was none. */
  lemma ConnectHolds(w: Whole, e: Event)
    requires ReorderRuns.GoodPath(w.path) && StationSafety.Safe(w.sta)
    requires e.Connect? && Approaching(Step(w.sta, e).sta) && !Approaching(w.sta)
    ensures HeldFrames(WholeStep(w, OfStation(e))) == if w.sta.peer then 0 else HeldFrames(w)
    ensures w.sta.peer ==> NoWindows(WholeStep(w, OfStation(e)).path)
    ensures !w.sta.peer ==> WholeStep(w, OfStation(e)).path == w.path
  {
    hide ReorderRuns.GoodPath, StationSafety.Safe, ReorderRuns.AllStored, Connecting, WholeStep, NoWindows;
    ConnectOnward(w.sta, e);
    if w.sta.peer {
      TornDown(w, e);
    } else {
      PathNone(w, OfStation(e));
    }
  }

  /** In every run from power-up in which each association made its peer record: a new connection starts without
      windows, and every frame handed up from then on, whatever happens, came in during it. */
  lemma NothingCarriedOver(s: Sta, hs: seq<Happening>, e: Event, later: seq<Happening>)
    requires StationSafety.Initial(s) && AllMadeRecords(hs) && e.Connect?
    requires var t := WholeRun(AtPowerUp(s), hs).sta; Approaching(Step(t, e).sta) && !Approaching(t)
    ensures var w := WholeStep(WholeRun(AtPowerUp(s), hs), OfStation(e)); var es := PathEvents(w.sta, later);
      && NoWindows(w.path)
      && WholeRun(w, later).path == ReorderRuns.Run(w.path, es).path
      && ReorderRuns.Delivered(ReorderRuns.Run(w.path, es).delivered) <= ReorderRuns.Received(es)
  {
    hide Step, ReorderRuns.Run, ReorderRuns.GoodPath, StationSafety.Safe, WholeStep, WholeRun, NoWindows, ReorderRuns.Delivered,
      ReorderRuns.Received, ReorderRuns.AllHeld, Approaching, PathEvents, Joined, AtPowerUp;
    var v := WholeRun(AtPowerUp(s), hs);
    PoweredUpTied(s);
    RunTied(AtPowerUp(s), hs);
    ConnectHolds(v, e);
    var w := WholeStep(v, OfStation(e));
    RunOfBoth(w, later);
    var es := PathEvents(w.sta, later);
    NothingHeld(w.path);
    ReorderRuns.RunConserves(w.path, es);
    var o := ReorderRuns.Run(w.path, es);
    AtMostAll(ReorderRuns.Received(es), ReorderRuns.Delivered(o.delivered), o.freed, ReorderRuns.AllHeld(o.path.windows));
  }

  lemma NothingHeld(p: ReorderRuns.Path)
    requires NoWindows(p)
    ensures ReorderRuns.AllHeld(p.windows) == multiset{}
  {
    ReorderRuns.NoWindows(p.windows);
  }

  lemma AtMostAll(a: multiset<ReorderSpec.Frame>, d: multiset<ReorderSpec.Frame>, f: multiset<ReorderSpec.Frame>,
                  h: multiset<ReorderSpec.Frame>)
    requires multiset{} + a == d + f + h
    ensures d <= a
  {
    forall x
      ensures d[x] <= a[x]
    {
      assert (multiset{} + a)[x] == (d + f + h)[x];
    }
  }

  // Without a peer record.

  /** A network without protection, joined while no peer record can be had; an agreement, a frame behind a gap; then
      the user disconnects. */
  function RecordlessRun(bss: Bss, frame: ReorderSpec.Frame): seq<Happening> {
    [OfStation(Start(true, true, true)), OfStation(Joining(bss)), OfStation(AuthResponse(bss.bssid, Granted())),
     OfStation(AssocResponse(bss.bssid, Admitted(), false)), Agreed(0, 0, 64, true), Data(0, frame), OfStation(Disconnect)]
  }

  function Joining(bss: Bss): Event {
    Connect(true, Some(bss), [], false, true)
  }

  function Joined4(s: Sta, bss: Bss): Sta {
    hide Step;
    var s2 := Step(Step(s, Start(true, true, true)).sta, Joining(bss)).sta;
    Step(Step(s2, AuthResponse(bss.bssid, Granted())).sta, AssocResponse(bss.bssid, Admitted(), false)).sta
  }

  lemma RecordlessStation(s: Sta, bss: Bss)
    requires StationSafety.Initial(s) && bss.cipher == NoCipher && !s.peer
    ensures var s1 := Step(s, Start(true, true, true)).sta; var s2 := Step(s1, Joining(bss)).sta;
            var s3 := Step(s2, AuthResponse(bss.bssid, Granted())).sta; var s4 := Joined4(s, bss); var s5 := Step(s4, Disconnect).sta;
      && !s1.peer && !s2.peer && !s3.peer && s4.state == Connected && !s4.peer
      && s5.state == Idle && !s5.peer && Step(s5, Joining(bss)).sta.state == Authenticating
  {
    hide NoPn, NoPtk, KeyDerivation.CString, Number, Granted, Admitted;
    Successes();
  }

  lemma Gap(frame: ReorderSpec.Frame)
    requires frame.number == 1
    ensures ReorderSpec.Input(ReorderRuns.FreshWindow(0, 64), frame)
         == ReorderSpec.Outcome(ReorderSpec.Window(0, 64, map[1 := frame]), [], [])
  {
    assert ReorderRuns.FreshWindow(0, 64) == ReorderSpec.Window(0, 64, map[]);
    var held: map<nat, ReorderSpec.Frame> := map[1 := frame];
    assert ReorderSpec.RunEnd(held, 0, 64) == 0;
    assert ReorderSpec.From(held, 0) == held;
  }

  /** The windows after the agreement and the frame. */
  function GapPath(frame: ReorderSpec.Frame): ReorderRuns.Path {
    ReorderRuns.Path(ReorderRuns.INITIAL.windows[0 := Some(ReorderSpec.Window(0, 64, map[1 := frame]))], true)
  }

  lemma GapSteps(frame: ReorderSpec.Frame)
    requires frame.number == 1
    ensures ReorderRuns.GoodPath(ReorderRuns.INITIAL)
    ensures var p := ReorderRuns.Step(ReorderRuns.INITIAL, ReorderRuns.Setup(0, 0, 64, true)).path;
      ReorderRuns.GoodPath(p) && ReorderRuns.Step(p, ReorderRuns.Receive(0, frame)).path == GapPath(frame)
  {
    hide ReorderRuns.AllStored, ReorderRuns.GoodPath, ReorderRuns.FreshWindow, ReorderSpec.Input, ReorderRuns.HeldBag, ReorderRuns.Tagged;
    InitialGood();
    ReorderRuns.StepGood(ReorderRuns.INITIAL, ReorderRuns.Setup(0, 0, 64, true));
    Gap(frame);
    assert !ReorderSpec.Stale(ReorderRuns.FreshWindow(0, 64), frame.Sn()) by { GapNotStale(frame); }
  }

  lemma GapNotStale(frame: ReorderSpec.Frame)
    requires frame.number == 1
    ensures !ReorderSpec.Stale(ReorderRuns.FreshWindow(0, 64), frame.Sn())
  {
  }

  lemma GapHeld(frame: ReorderSpec.Frame)
    ensures ReorderRuns.AllStored(GapPath(frame).windows) == 1
  {
    hide ReorderRuns.AllStored;
    var ws := ReorderRuns.INITIAL.windows;
    ReorderRuns.NoWindows(ws);
    ReorderRuns.UpdateSums(ws, 0, Some(ReorderSpec.Window(0, 64, map[1 := frame])));
  }

  lemma OneMore(w: Whole, h: Happening, hs: seq<Happening>)
    requires ReorderRuns.GoodPath(w.path)
    ensures WholeRun(w, [h] + hs) == WholeRun(WholeStep(w, h), hs)
  {
    hide WholeStep, ReorderRuns.GoodPath;
    assert ([h] + hs)[1..] == hs;
  }

  lemma NoMore(w: Whole)
    requires ReorderRuns.GoodPath(w.path)
    ensures WholeRun(w, []) == w
  {
  }

  lemma GapRun(w: Whole, frame: ReorderSpec.Frame)
    requires w.path == ReorderRuns.INITIAL && w.sta.state == Connected && frame.number == 1
    ensures ReorderRuns.GoodPath(w.path)
    ensures var v := WholeStep(w, Agreed(0, 0, 64, true)); WholeStep(v, Data(0, frame)) == Whole(w.sta, GapPath(frame))
  {
    hide ReorderRuns.Step, ReorderRuns.GoodPath, ReorderRuns.Run, GapPath;
    GapSteps(frame);
    PathOne(w.path, ReorderRuns.Setup(0, 0, 64, true));
    PathOne(ReorderRuns.Step(w.path, ReorderRuns.Setup(0, 0, 64, true)).path, ReorderRuns.Receive(0, frame));
  }

  /** Without a record nothing but a deauthentication reaches the windows. */
  lemma RecordlessStep(w: Whole, e: Event)
    requires ReorderRuns.GoodPath(w.path) && !w.sta.peer && !e.Deauth?
    ensures WholeStep(w, OfStation(e)) == Whole(Step(w.sta, e).sta, w.path)
  {
    hide Step, ReorderRuns.GoodPath, WholeStep;
    PathNone(w, OfStation(e));
    StationNext(w, e);
  }

  /** That no frame is carried over is false of the code when no peer record could be had. The input: this run, after
      which the connect command finds a frame of the old connection still held. */
  lemma CarriedOver(s: Sta, bss: Bss, frame: ReorderSpec.Frame)
    requires StationSafety.Initial(s) && !s.peer && bss.cipher == NoCipher && frame.number == 1
    ensures var w := WholeRun(AtPowerUp(s), RecordlessRun(bss, frame)); var v := WholeStep(w, OfStation(Joining(bss)));
      Approaching(v.sta) && !Approaching(w.sta) && HeldFrames(v) == 1
  {
    hide Step, ReorderRuns.GoodPath, WholeStep, WholeRun, GapPath, ReorderRuns.AllStored, StationSafety.Initial;
    RecordlessStation(s, bss);
    var a, b, c, d := Start(true, true, true), Joining(bss), AuthResponse(bss.bssid, Granted()), AssocResponse(bss.bssid, Admitted(), false);
    var g, h, i := Agreed(0, 0, 64, true), Data(0, frame), OfStation(Disconnect);
    var w0 := AtPowerUp(s);
    RecordlessStep(w0, a);
    var w1 := WholeStep(w0, OfStation(a));
    RecordlessStep(w1, b);
    var w2 := WholeStep(w1, OfStation(b));
    RecordlessStep(w2, c);
    var w3 := WholeStep(w2, OfStation(c));
    RecordlessStep(w3, d);
    var w4 := WholeStep(w3, OfStation(d));
    GapRun(w4, frame);
    var w5 := WholeStep(w4, g);
    var w6 := WholeStep(w5, h);
    RecordlessStep(w6, Disconnect);
    var w7 := WholeStep(w6, i);
    RecordlessStep(w7, b);
    GapHeld(frame);
    assert WholeRun(w0, RecordlessRun(bss, frame)) == w7 by {
      Spelled(bss, frame);
      var r5 := [h, i];
      var r4 := [g] + r5;
      var r3 := [OfStation(d)] + r4;
      var r2 := [OfStation(c)] + r3;
      var r1 := [OfStation(b)] + r2;
      NoMore(w7);
      OneMore(w6, i, []);
      assert [i] + [] == [i];
      OneMore(w5, h, [i]);
      OneMore(w4, g, r5);
      OneMore(w3, OfStation(d), r4);
      OneMore(w2, OfStation(c), r3);
      OneMore(w1, OfStation(b), r2);
      OneMore(w0, OfStation(a), r1);
    }
  }

  lemma Spelled(bss: Bss, frame: ReorderSpec.Frame)
    ensures var b, c := OfStation(Joining(bss)), OfStation(AuthResponse(bss.bssid, Granted()));
            var d := OfStation(AssocResponse(bss.bssid, Admitted(), false));
            var g, h, i := Agreed(0, 0, 64, true), Data(0, frame), OfStation(Disconnect);
      && RecordlessRun(bss, frame) == [OfStation(Start(true, true, true))] + ([b] + ([c] + ([d] + ([g] + [h, i]))))
      && [h, i] == [h] + [i]
  {
  }
}
