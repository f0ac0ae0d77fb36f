/** Runs of the receive path: eight windows, one hole timer, any interleaving of events. */
module ReorderRuns {
  import opened Options
  import opened ReorderSpec

  /** The windows by TID, and whether the hole timer is set. */
  datatype Path = Path(windows: seq<Option<Window>>, armed: bool)

  datatype Event =
    | Setup(tid: nat, ssn: nat, bufSize: nat, memory: bool)
    | Teardown(tid: nat)
    | TeardownAll
    | Receive(tid: nat, frame: Frame)
    | TimerFires

  /** A frame handed to the network stack: straight through, or out of a window. */
  datatype Delivery = Direct(frame: Frame) | InWindow(tid: nat, released: Released)

  datatype Output = Output(path: Path, delivered: seq<Delivery>, freed: multiset<Frame>)

  function FrameOf(d: Delivery): Frame {
    match d
    case Direct(f) => f
    case InWindow(_, r) => r.frame
  }

  function FramesOf(ds: seq<Delivery>): seq<Frame> {
    seq(|ds|, i requires 0 <= i < |ds| => FrameOf(ds[i]))
  }

  function Delivered(ds: seq<Delivery>): multiset<Frame> {
    multiset(FramesOf(ds))
  }

  function HeldBag(o: Option<Window>): multiset<Frame> {
    match o
    case None => multiset{}
    case Some(w) => Bag(Held(w))
  }

  function AllHeld(ws: seq<Option<Window>>): multiset<Frame> {
    if |ws| == 0 then multiset{} else HeldBag(ws[0]) + AllHeld(ws[1..])
  }

  function Stored(o: Option<Window>): nat {
    match o
    case None => 0
    case Some(w) => |w.held|
  }

  function AllStored(ws: seq<Option<Window>>): nat {
    if |ws| == 0 then 0 else Stored(ws[0]) + AllStored(ws[1..])
  }

  function Tagged(tid: nat, rs: seq<Released>): seq<Delivery> {
    seq(|rs|, i requires 0 <= i < |rs| => InWindow(tid, rs[i]))
  }

  function FreshWindow(ssn: nat, bufSize: nat): Window {
    Window(ssn % MODULUS, if bufSize == 0 || bufSize > SLOTS then SLOTS else bufSize, map[])
  }

  /** The timer visits the windows from tid on; together they may release room frames. */
  function FlushAll(ws: seq<Option<Window>>, tid: nat, room: nat): (r: (seq<Option<Window>>, seq<Delivery>))
    requires tid <= |ws|
    ensures |r.0| == |ws|
    decreases |ws| - tid
  {
    if tid == |ws| then (ws, [])
    else if ws[tid].None? then FlushAll(ws, tid + 1, room)
    else
      var o := Flush(ws[tid].value, room);
      var rest := FlushAll(ws[tid := Some(o.window)], tid + 1, if |o.released| <= room then room - |o.released| else 0);
      (rest.0, Tagged(tid, o.released) + rest.1)
  }

  function Step(p: Path, e: Event): (o: Output)
    requires GoodPath(p)
  {
    match e
    case Setup(tid, ssn, bufSize, memory) =>
      if tid >= TIDS || (p.windows[tid].None? && !memory) then Output(p, [], multiset{})
      else Output(Path(p.windows[tid := Some(FreshWindow(ssn, bufSize))], p.armed), [], HeldBag(p.windows[tid]))
    case Teardown(tid) =>
      if tid >= TIDS then Output(p, [], multiset{})
      else Output(Path(p.windows[tid := None], p.armed), [], HeldBag(p.windows[tid]))
    case TeardownAll =>
      Output(Path(seq(TIDS, _ => None), p.armed), [], AllHeld(p.windows))
    case Receive(tid, frame) =>
      if tid >= TIDS || p.windows[tid].None? then Output(p, [Direct(frame)], multiset{})
      else
        var o := Input(p.windows[tid].value, frame);
        Output(Path(p.windows[tid := Some(o.window)], p.armed || (!Stale(p.windows[tid].value, frame.Sn()) && |o.window.held| > 0)),
               Tagged(tid, o.released), multiset(o.freed))
    case TimerFires =>
      var (ws, ds) := FlushAll(p.windows, 0, SLOTS);
      Output(Path(ws, AllStored(ws) > 0), ds, multiset{})
  }

  /** Every window is good, and the timer is set whenever a frame is held. */
  ghost predicate GoodPath(p: Path) {
    && |p.windows| == TIDS
    && AllGood(p.windows)
    && (AllStored(p.windows) > 0 ==> p.armed)
  }

  // Sums over the windows and the deliveries.

  lemma BagFront(x: multiset<Frame>, a: multiset<Frame>, b: multiset<Frame>, c: multiset<Frame>, d: multiset<Frame>)
    requires a + b == c + d
    ensures (x + a) + b == (x + c) + d
  {
    assert (x + a) + b == x + (a + b);
  }

  lemma FlushedBags(all: multiset<Frame>, old': multiset<Frame>, between: multiset<Frame>, new': multiset<Frame>,
                    out: multiset<Frame>, later: multiset<Frame>, left: multiset<Frame>)
    requires between + old' == all + new' && old' == out + new' && between == later + left
    ensures all == (out + later) + left
  {
    forall f
      ensures all[f] == ((out + later) + left)[f]
    {
      assert (between + old')[f] == (all + new')[f] && old'[f] == (out + new')[f] && between[f] == (later + left)[f];
    }
  }

  lemma {:induction false} UpdateSums(ws: seq<Option<Window>>, t: nat, o: Option<Window>)
    requires t < |ws|
    ensures AllStored(ws[t := o]) + Stored(ws[t]) == AllStored(ws) + Stored(o)
    ensures AllHeld(ws[t := o]) + HeldBag(ws[t]) == AllHeld(ws) + HeldBag(o)
  {
    hide HeldBag, Stored;
    var after := ws[t := o];
    assert AllHeld(after) == HeldBag(after[0]) + AllHeld(after[1..]);
    if t == 0 {
      assert after[1..] == ws[1..];
    } else {
      UpdateSums(ws[1..], t - 1, o);
      assert after[1..] == ws[1..][t - 1 := o];
      BagFront(HeldBag(ws[0]), AllHeld(after[1..]), HeldBag(ws[t]), AllHeld(ws[1..]), HeldBag(o));
    }
  }

  lemma {:induction false} NoWindows(ws: seq<Option<Window>>)
    requires forall t :: 0 <= t < |ws| ==> ws[t].None?
    ensures AllStored(ws) == 0 && AllHeld(ws) == multiset{}
  {
    if |ws| > 0 {
      NoWindows(ws[1..]);
    }
  }

  lemma NothingDelivered()
    ensures Delivered([]) == multiset{}
  {
  }

  lemma DeliveredConcat(p: seq<Delivery>, q: seq<Delivery>)
    ensures Delivered(p + q) == Delivered(p) + Delivered(q)
  {
    assert FramesOf(p + q) == FramesOf(p) + FramesOf(q);
  }

  lemma TaggedFrames(tid: nat, rs: seq<Released>)
    ensures Delivered(Tagged(tid, rs)) == Bag(rs)
  {
    assert FramesOf(Tagged(tid, rs)) == Frames(rs);
  }

  function OnOne(d: Delivery, tid: nat): seq<Released> {
    if d.InWindow? && d.tid == tid then [d.released] else []
  }

  /** The releases of one window, in the order they were delivered. */
  function On(ds: seq<Delivery>, tid: nat): seq<Released> {
    if |ds| == 0 then [] else OnOne(ds[0], tid) + On(ds[1..], tid)
  }

  lemma {:induction false} OnConcat(p: seq<Delivery>, q: seq<Delivery>, tid: nat)
    ensures On(p + q, tid) == On(p, tid) + On(q, tid)
  {
    hide OnOne;
    if |p| == 0 {
      assert p + q == q;
    } else {
      var r := p + q;
      assert r[0] == p[0] && r[1..] == p[1..] + q;
      OnConcat(p[1..], q, tid);
      Associative(OnOne(p[0], tid), On(p[1..], tid), On(q, tid));
    }
  }

  lemma OnNothing(tid: nat)
    ensures On([], tid) == []
  {
  }

  lemma Associative(x: seq<Released>, y: seq<Released>, z: seq<Released>)
    ensures (x + y) + z == x + (y + z)
  {
  }

  lemma {:induction false} OnTagged(t: nat, rs: seq<Released>, tid: nat)
    ensures On(Tagged(t, rs), tid) == if t == tid then rs else []
  {
    if |rs| > 0 {
      OnTagged(t, rs[1..], tid);
      assert Tagged(t, rs)[1..] == Tagged(t, rs[1..]);
    }
  }

  ghost predicate AllGood(ws: seq<Option<Window>>) {
    forall t :: 0 <= t < |ws| && ws[t].Some? ==> Good(ws[t].value)
  }

  /** One window before and after: still there, its head not moved back, and the releases in between in order. */
  ghost predicate Advanced(before: Option<Window>, rs: seq<Released>, after: Option<Window>) {
    match before
    case None => after.None? && rs == []
    case Some(w) => after.Some? && after.value.head >= w.head && Increasing(rs, w.head, after.value.head)
  }

  lemma AdvancedOn(before: Option<Window>, rs: seq<Released>, between: Option<Window>, rs': seq<Released>, after: Option<Window>)
    requires Advanced(before, rs, between) && Advanced(between, rs', after)
    ensures Advanced(before, rs + rs', after)
  {
  }

  lemma StaysPut(o: Option<Window>)
    ensures Advanced(o, [], o)
  {
  }

  // The pass of the timer over the windows from tid on.

  lemma {:induction false} FlushAllGood(ws: seq<Option<Window>>, tid: nat, room: nat)
    requires AllGood(ws) && tid <= |ws|
    ensures AllGood(FlushAll(ws, tid, room).0)
    decreases |ws| - tid
  {
    hide Good, Flush;
    if tid < |ws| && ws[tid].None? {
      FlushAllGood(ws, tid + 1, room);
    } else if tid < |ws| {
      FlushOne(ws[tid].value, room);
      FlushAllGood(ws[tid := Some(Flush(ws[tid].value, room).window)], tid + 1, room - |Flush(ws[tid].value, room).released|);
    }
  }

  lemma {:induction false} FlushAllConserves(ws: seq<Option<Window>>, tid: nat, room: nat)
    requires AllGood(ws) && tid <= |ws|
    ensures AllHeld(ws) == Delivered(FlushAll(ws, tid, room).1) + AllHeld(FlushAll(ws, tid, room).0)
    decreases |ws| - tid
  {
    hide Good, Bag, Held, Flush, HeldBag, AllHeld, Tagged, Delivered;
    if tid == |ws| {
      NothingDelivered();
    } else if ws[tid].None? {
      FlushAllConserves(ws, tid + 1, room);
    } else {
      var o := Flush(ws[tid].value, room);
      FlushOne(ws[tid].value, room);
      var between := ws[tid := Some(o.window)];
      UpdateSums(ws, tid, Some(o.window));
      FlushAllConserves(between, tid + 1, room - |o.released|);
      var rest := FlushAll(between, tid + 1, room - |o.released|);
      DeliveredConcat(Tagged(tid, o.released), rest.1);
      TaggedFrames(tid, o.released);
      FlushedBags(AllHeld(ws), HeldBag(ws[tid]), AllHeld(between), HeldBag(Some(o.window)), Bag(o.released), Delivered(rest.1), AllHeld(rest.0));
    }
  }

  lemma {:induction false} FlushAllOrdered(ws: seq<Option<Window>>, tid: nat, room: nat, t: nat)
    requires AllGood(ws) && tid <= |ws| && t < |ws|
    ensures Advanced(ws[t], On(FlushAll(ws, tid, room).1, t), FlushAll(ws, tid, room).0[t])
    decreases |ws| - tid
  {
    hide Good, Bag, Held, Flush, HeldBag, Increasing, Advanced, On, Tagged;
    if tid == |ws| {
      OnNothing(t);
      StaysPut(ws[t]);
    } else if ws[tid].None? {
      FlushAllOrdered(ws, tid + 1, room, t);
    } else {
      var o := Flush(ws[tid].value, room);
      FlushOne(ws[tid].value, room);
      var between := ws[tid := Some(o.window)];
      FlushAllOrdered(between, tid + 1, room - |o.released|, t);
      var rest := FlushAll(between, tid + 1, room - |o.released|);
      OnConcat(Tagged(tid, o.released), rest.1, t);
      OnTagged(tid, o.released, t);
      StaysPut(ws[t]);
      AdvancedOn(ws[t], if t == tid then o.released else [], between[t], On(rest.1, t), rest.0[t]);
    }
  }

  lemma {:induction false} FlushAllLowers(ws: seq<Option<Window>>, tid: nat, room: nat)
    requires AllGood(ws) && tid <= |ws|
    ensures AllStored(FlushAll(ws, tid, room).0) <= AllStored(ws)
    ensures (exists t :: tid <= t < |ws| && Stored(ws[t]) > 0) && room > 0 ==> AllStored(FlushAll(ws, tid, room).0) < AllStored(ws)
    decreases |ws| - tid
  {
    hide Good, Bag, Held, Flush, HeldBag, Stored;
    if tid < |ws| && ws[tid].None? {
      FlushAllLowers(ws, tid + 1, room);
      EmptySlot(ws[tid]);
    } else if tid < |ws| {
      var o := Flush(ws[tid].value, room);
      FlushOne(ws[tid].value, room);
      UpdateSums(ws, tid, Some(o.window));
      FlushAllLowers(ws[tid := Some(o.window)], tid + 1, room - |o.released|);
    }
  }

  lemma EmptySlot(o: Option<Window>)
    requires o.None?
    ensures Stored(o) == 0 && HeldBag(o) == multiset{}
  {
  }

  lemma FlushOne(w: Window, room: nat)
    requires Good(w)
    ensures var o := Flush(w, room);
      && Good(o.window) && |o.released| <= room
      && HeldBag(Some(w)) == Bag(o.released) + HeldBag(Some(o.window))
      && Stored(Some(o.window)) + |o.released| == Stored(Some(w))
      && (Stored(Some(w)) > 0 && room > 0 ==> |o.released| > 0)
      && Advanced(Some(w), o.released, Some(o.window))
  {
    hide Flush, Good, Bag, Held, Increasing;
    FlushKeeps(w, room);
  }

  // One event.

  function Incoming(e: Event): multiset<Frame> {
    if e.Receive? then multiset{e.frame} else multiset{}
  }

  lemma FreshGood(ssn: nat, bufSize: nat)
    ensures Good(FreshWindow(ssn, bufSize))
    ensures Stored(Some(FreshWindow(ssn, bufSize))) == 0 && HeldBag(Some(FreshWindow(ssn, bufSize))) == multiset{}
  {
    var w := FreshWindow(ssn, bufSize);
    InOrderEmpty(w.held, w.head, w.head + w.size);
  }

  lemma InputOne(w: Window, f: Frame)
    requires Good(w)
    ensures Good(Input(w, f).window)
    ensures HeldBag(Some(w)) + multiset{f} == Bag(Input(w, f).released) + multiset(Input(w, f).freed) + HeldBag(Some(Input(w, f).window))
    ensures Stale(w, f.Sn()) ==> Input(w, f).window == w
    ensures Advanced(Some(w), Input(w, f).released, Some(Input(w, f).window))
  {
    hide Good, Bag, Held, Increasing, RunEnd, InOrder, From;
    InputKeeps(w, f);
  }

  lemma PutGood(ws: seq<Option<Window>>, tid: nat, o: Option<Window>)
    requires AllGood(ws) && tid < |ws| && (o.Some? ==> Good(o.value))
    ensures AllGood(ws[tid := o])
  {
  }

  lemma ReceiveGood(p: Path, tid: nat, frame: Frame)
    requires GoodPath(p)
    ensures GoodPath(Step(p, Receive(tid, frame)).path)
  {
    hide Good, Input, Stored, Tagged, Stale, AllGood, Held, Bag;
    if tid < TIDS && p.windows[tid].Some? {
      var w := p.windows[tid].value;
      GoodAt(p.windows, tid);
      SizeOf(w);
      InputOne(w, frame);
      PutGood(p.windows, tid, Some(Input(w, frame).window));
      UpdateSums(p.windows, tid, Some(Input(w, frame).window));
      StoredOf(w);
      StoredOf(Input(w, frame).window);
    }
  }

  lemma GoodAt(ws: seq<Option<Window>>, tid: nat)
    requires AllGood(ws) && tid < |ws| && ws[tid].Some?
    ensures Good(ws[tid].value)
  {
  }

  /** Every event keeps every window good and the timer set while anything is held. */
  lemma StepGood(p: Path, e: Event)
    requires GoodPath(p)
    ensures GoodPath(Step(p, e).path)
  {
    hide Good, Input, FreshWindow, FlushAll, Stored, HeldBag, Tagged, Stale, AllGood;
    match e
    case Setup(tid, ssn, bufSize, memory) =>
      if tid < TIDS {
        FreshGood(ssn, bufSize);
        PutGood(p.windows, tid, Some(FreshWindow(ssn, bufSize)));
        UpdateSums(p.windows, tid, Some(FreshWindow(ssn, bufSize)));
      }
    case Teardown(tid) =>
      if tid < TIDS {
        PutGood(p.windows, tid, None);
        UpdateSums(p.windows, tid, None);
        EmptySlot(None);
      }
    case TeardownAll =>
      NoWindows(seq(TIDS, _ => None));
      NoneGood();
    case Receive(tid, frame) =>
      ReceiveGood(p, tid, frame);
    case TimerFires =>
      FlushAllGood(p.windows, 0, SLOTS);
  }

  lemma NoneGood()
    ensures AllGood(seq(TIDS, _ => None))
  {
  }

  lemma StoredOf(w: Window)
    ensures Stored(Some(w)) == |w.held|
  {
  }

  /** Every event: what was held and what came in is delivered, freed or still held. */
  lemma StepConserves(p: Path, e: Event)
    requires GoodPath(p)
    ensures var o := Step(p, e);
      AllHeld(p.windows) + Incoming(e) == Delivered(o.delivered) + o.freed + AllHeld(o.path.windows)
  {
    hide Good, Input, FreshWindow, FlushAll, HeldBag, Tagged, Delivered, AllHeld, Stale, AllStored, AllGood;
    NothingDelivered();
    match e
    case Setup(tid, ssn, bufSize, memory) =>
      if tid < TIDS {
        FreshGood(ssn, bufSize);
        UpdateSums(p.windows, tid, Some(FreshWindow(ssn, bufSize)));
      }
    case Teardown(tid) =>
      if tid < TIDS {
        UpdateSums(p.windows, tid, None);
        EmptySlot(None);
      }
    case TeardownAll =>
      NoWindows(seq(TIDS, _ => None));
    case Receive(tid, frame) =>
      if tid < TIDS && p.windows[tid].Some? {
        var w := p.windows[tid].value;
        GoodAt(p.windows, tid);
        SizeOf(w);
        var o := Input(w, frame);
        InputOne(w, frame);
        UpdateSums(p.windows, tid, Some(o.window));
        TaggedFrames(tid, o.released);
        InputBags(AllHeld(p.windows), HeldBag(Some(w)), multiset{frame}, Bag(o.released), multiset(o.freed),
                  HeldBag(Some(o.window)), AllHeld(p.windows[tid := Some(o.window)]));
      } else {
        DirectFrame(frame);
      }
    case TimerFires =>
      FlushAllConserves(p.windows, 0, SLOTS);
  }

  lemma DirectFrame(f: Frame)
    ensures Delivered([Direct(f)]) == multiset{f}
  {
    assert FramesOf([Direct(f)]) == [f];
  }

  lemma InputBags(all: multiset<Frame>, old': multiset<Frame>, f: multiset<Frame>, out: multiset<Frame>, freed: multiset<Frame>,
                  new': multiset<Frame>, after: multiset<Frame>)
    requires after + old' == all + new' && old' + f == out + freed + new'
    ensures all + f == out + freed + after
  {
    forall x
      ensures (all + f)[x] == (out + freed + after)[x]
    {
      assert (after + old')[x] == (all + new')[x] && (old' + f)[x] == (out + freed + new')[x];
    }
  }

  /** The events that start or end the agreement on a TID. */
  predicate Resets(e: Event, tid: nat) {
    match e
    case Setup(t, _, _, _) => t == tid
    case Teardown(t) => t == tid
    case TeardownAll => true
    case Receive(_, _) => false
    case TimerFires => false
  }

  /** Between a setup and the next reset of a TID, one event releases in order and never moves the head back. */
  lemma StepOrdered(p: Path, e: Event, tid: nat)
    requires GoodPath(p) && tid < TIDS && !Resets(e, tid)
    ensures Advanced(p.windows[tid], On(Step(p, e).delivered, tid), Step(p, e).path.windows[tid])
  {
    hide Good, Input, FreshWindow, FlushAll, Tagged, Advanced, On, Stale, AllStored, AllGood;
    OnNothing(tid);
    StaysPut(p.windows[tid]);
    match e
    case Setup(_, _, _, _) =>
    case Teardown(_) =>
    case TeardownAll =>
    case Receive(t, frame) =>
      if t < TIDS && p.windows[t].Some? {
        GoodAt(p.windows, t);
        SizeOf(p.windows[t].value);
        InputOne(p.windows[t].value, frame);
        OnTagged(t, Input(p.windows[t].value, frame).released, tid);
      } else {
        OnDirect(frame, tid);
      }
    case TimerFires =>
      FlushAllOrdered(p.windows, 0, SLOTS, tid);
  }

  lemma OnDirect(f: Frame, tid: nat)
    ensures On([Direct(f)], tid) == []
  {
    assert On([], tid) == [];
  }

  // Runs.

  function Run(p: Path, es: seq<Event>): (o: Output)
    requires GoodPath(p)
    ensures GoodPath(o.path)
    decreases |es|
  {
    hide Step, GoodPath;
    if |es| == 0 then Output(p, [], multiset{})
    else
      StepGood(p, es[0]);
      var o := Step(p, es[0]);
      var rest := Run(o.path, es[1..]);
      Output(rest.path, o.delivered + rest.delivered, o.freed + rest.freed)
  }

  function Received(es: seq<Event>): multiset<Frame> {
    if |es| == 0 then multiset{} else Incoming(es[0]) + Received(es[1..])
  }

  /** Conservation over every run: each frame handed in is delivered, freed or still held, as often as it came in. */
  lemma {:induction false} RunConserves(p: Path, es: seq<Event>)
    requires GoodPath(p)
    ensures AllHeld(p.windows) + Received(es)
         == Delivered(Run(p, es).delivered) + Run(p, es).freed + AllHeld(Run(p, es).path.windows)
    decreases |es|
  {
    hide Step, GoodPath, AllHeld, Delivered, Incoming;
    if |es| == 0 {
      NothingDelivered();
    } else {
      var o := Step(p, es[0]);
      StepGood(p, es[0]);
      StepConserves(p, es[0]);
      RunConserves(o.path, es[1..]);
      var rest := Run(o.path, es[1..]);
      DeliveredConcat(o.delivered, rest.delivered);
      RunBags(AllHeld(p.windows), Incoming(es[0]), Delivered(o.delivered), o.freed, AllHeld(o.path.windows), Received(es[1..]),
              Delivered(rest.delivered), rest.freed, AllHeld(rest.path.windows));
    }
  }

  lemma RunBags(a: multiset<Frame>, i: multiset<Frame>, d: multiset<Frame>, f: multiset<Frame>, b: multiset<Frame>,
                j: multiset<Frame>, d': multiset<Frame>, f': multiset<Frame>, c: multiset<Frame>)
    requires a + i == d + f + b && b + j == d' + f' + c
    ensures a + (i + j) == (d + d') + (f + f') + c
  {
    forall x
      ensures (a + (i + j))[x] == ((d + d') + (f + f') + c)[x]
    {
      assert (a + i)[x] == (d + f + b)[x] && (b + j)[x] == (d' + f' + c)[x];
    }
  }

  /** Power-up: no agreement, nothing held. */
  const INITIAL: Path := Path([None, None, None, None, None, None, None, None], false)

  /** From power-up, frames that each come in once are each delivered at most once, and never both
      delivered and freed, or delivered and still held. */
  lemma DeliveredAtMostOnce(es: seq<Event>, f: Frame)
    requires Received(es)[f] == 1
    ensures GoodPath(INITIAL)
    ensures var o := Run(INITIAL, es); Delivered(o.delivered)[f] + o.freed[f] + AllHeld(o.path.windows)[f] == 1
  {
    hide Run, Delivered, Good, AllStored, AllHeld;
    NoWindows(INITIAL.windows);
    RunConserves(INITIAL, es);
    var o := Run(INITIAL, es);
    assert (AllHeld(INITIAL.windows) + Received(es))[f] == (Delivered(o.delivered) + o.freed + AllHeld(o.path.windows))[f];
  }

  /** In-order delivery over every run: as long as nothing resets a TID, the numbers of the frames its
      window releases strictly increase, whatever mix of arrivals and timer firings occurs. */
  lemma {:induction false} RunOrdered(p: Path, es: seq<Event>, tid: nat)
    requires GoodPath(p) && tid < TIDS && forall e :: e in es ==> !Resets(e, tid)
    ensures Advanced(p.windows[tid], On(Run(p, es).delivered, tid), Run(p, es).path.windows[tid])
    decreases |es|
  {
    hide Step, GoodPath, AllGood, Advanced, On, Resets;
    Tids(p);
    if |es| == 0 {
      OnNothing(tid);
      StaysPut(p.windows[tid]);
    } else {
      var o := Step(p, es[0]);
      StepGood(p, es[0]);
      Tids(p);
      Tids(o.path);
      StepOrdered(p, es[0], tid);
      RunOrdered(o.path, es[1..], tid);
      var rest := Run(o.path, es[1..]);
      Tids(rest.path);
      OnConcat(o.delivered, rest.delivered, tid);
      AdvancedOn(p.windows[tid], On(o.delivered, tid), o.path.windows[tid], On(rest.delivered, tid), rest.path.windows[tid]);
    }
  }

  lemma Tids(p: Path)
    requires GoodPath(p)
    ensures |p.windows| == TIDS
  {
  }

  // The hole timer.

  /** A firing of the timer with something held lowers the number of held frames, and nothing it releases is lost. */
  lemma TimerLowers(p: Path)
    requires GoodPath(p)
    ensures AllStored(Step(p, TimerFires).path.windows) <= AllStored(p.windows)
    ensures AllStored(p.windows) > 0 ==> AllStored(Step(p, TimerFires).path.windows) < AllStored(p.windows)
  {
    hide Good, FlushAll, AllGood;
    FlushAllLowers(p.windows, 0, SLOTS);
    if AllStored(p.windows) > 0 {
      var t := SomeStored(p.windows);
    }
  }

  lemma {:induction false} SomeStored(ws: seq<Option<Window>>) returns (t: nat)
    requires AllStored(ws) > 0
    ensures t < |ws| && Stored(ws[t]) > 0
  {
    if Stored(ws[0]) > 0 {
      t := 0;
    } else {
      t := SomeStored(ws[1..]);
      t := t + 1;
    }
  }

  /** Without new input, as many firings as there are held frames empty every window. */
  lemma {:induction false} TimerEmpties(p: Path, n: nat)
    requires GoodPath(p) && n >= AllStored(p.windows)
    ensures AllStored(Run(p, seq(n, _ => TimerFires)).path.windows) == 0
    decreases n
  {
    hide Step, GoodPath, AllStored;
    var es := seq(n, _ => TimerFires);
    if n > 0 {
      StepGood(p, TimerFires);
      TimerLowers(p);
      assert es[1..] == seq(n - 1, _ => TimerFires);
      TimerEmpties(Step(p, TimerFires).path, n - 1);
    }
  }

  // The sender's numbers.

  /** Every held frame has the number its sender gave it. */
  ghost predicate True(w: Window) {
    forall k :: k in w.held ==> w.held[k].number == k
  }

  ghost predicate AllTrue(rs: seq<Released>) {
    forall i :: 0 <= i < |rs| ==> rs[i].num == rs[i].frame.number
  }

  lemma ReleaseTrue(w: Window, held: map<nat, Frame>, e: nat, freed: seq<Frame>)
    requires forall k :: k in held ==> held[k].number == k
    ensures AllTrue(Release(w, held, e, freed).released) && True(Release(w, held, e, freed).window)
  {
    hide InOrder, From, Increasing;
    InOrderIncreasing(held, w.head, e);
  }

  lemma InputTrue(w: Window, f: Frame)
    requires Good(w) && True(w) && Near(w, f)
    ensures AllTrue(Input(w, f).released) && True(Input(w, f).window)
  {
    hide RunEnd, From, InOrder, Floor, Stale, Number, Release;
    NumberIsTrue(w, f);
    if !Stale(w, f.Sn()) {
      var held := Insert(w.held, Number(w, f.Sn()), f);
      var floor := Floor(w, Number(w, f.Sn()));
      ReleaseTrue(w, held, RunEnd(held, floor, floor + w.size), if Number(w, f.Sn()) in w.held then [f] else []);
    }
  }

  lemma FlushTrue(w: Window, room: nat)
    requires Good(w) && True(w)
    ensures AllTrue(Flush(w, room).released) && True(Flush(w, room).window)
  {
    hide RunEnd, From, InOrder, First, Release;
    if |w.held| > 0 {
      var bound := w.head + w.size;
      var first := First(w.held, w.head, bound);
      ReleaseTrue(w, w.held, RunEnd(w.held, first, if room < bound - first then first + room else bound), []);
    }
  }

  lemma {:induction false} FlushAllTrue(ws: seq<Option<Window>>, tid: nat, room: nat, t: nat)
    requires AllGood(ws) && tid <= |ws| && t < |ws| && (ws[t].Some? ==> True(ws[t].value))
    ensures AllTrue(On(FlushAll(ws, tid, room).1, t))
    ensures FlushAll(ws, tid, room).0[t].Some? ==> True(FlushAll(ws, tid, room).0[t].value)
    decreases |ws| - tid
  {
    hide Good, Flush, On, Tagged, True;
    if tid == |ws| {
      OnNothing(t);
    } else if ws[tid].None? {
      FlushAllTrue(ws, tid + 1, room, t);
    } else {
      var o := Flush(ws[tid].value, room);
      FlushOne(ws[tid].value, room);
      if t == tid {
        FlushTrue(ws[tid].value, room);
      }
      FlushAllTrue(ws[tid := Some(o.window)], tid + 1, room - |o.released|, t);
      OnConcat(Tagged(tid, o.released), FlushAll(ws[tid := Some(o.window)], tid + 1, room - |o.released|).1, t);
      OnTagged(tid, o.released, t);
    }
  }

  /** An arrival on the TID is within half the number space of the head of its window. */
  predicate InReach(p: Path, e: Event, tid: nat)
    requires GoodPath(p) && tid < TIDS
  {
    e.Receive? && e.tid == tid && p.windows[tid].Some? ==> Near(p.windows[tid].value, e.frame)
  }

  predicate RunInReach(p: Path, es: seq<Event>, tid: nat)
    requires GoodPath(p) && tid < TIDS
    decreases |es|
  {
    hide Step, GoodPath;
    |es| == 0 || (InReach(p, es[0], tid) && (StepGood(p, es[0]); RunInReach(Step(p, es[0]).path, es[1..], tid)))
  }

  lemma StepTrue(p: Path, e: Event, tid: nat)
    requires GoodPath(p) && tid < TIDS && !Resets(e, tid) && InReach(p, e, tid)
    requires p.windows[tid].Some? ==> True(p.windows[tid].value)
    ensures AllTrue(On(Step(p, e).delivered, tid))
    ensures Step(p, e).path.windows[tid].Some? ==> True(Step(p, e).path.windows[tid].value)
  {
    hide Good, Input, FreshWindow, FlushAll, Tagged, On, Stale, AllStored, AllGood, True;
    OnNothing(tid);
    match e
    case Setup(_, _, _, _) =>
    case Teardown(_) =>
    case TeardownAll =>
    case Receive(t, frame) =>
      if t < TIDS && p.windows[t].Some? {
        GoodAt(p.windows, t);
        SizeOf(p.windows[t].value);
        if t == tid {
          InputTrue(p.windows[t].value, frame);
        }
        OnTagged(t, Input(p.windows[t].value, frame).released, tid);
      } else {
        OnDirect(frame, tid);
      }
    case TimerFires =>
      FlushAllTrue(p.windows, 0, SLOTS, tid);
  }

  /** Over every run whose arrivals on a TID stay within reach of its window, each frame the window
      releases carries its sender's own number; with RunOrdered, frames reach the stack in the order
      they were sent and none twice. */
  lemma {:induction false} RunTrue(p: Path, es: seq<Event>, tid: nat)
    requires GoodPath(p) && tid < TIDS && (forall e :: e in es ==> !Resets(e, tid)) && RunInReach(p, es, tid)
    requires p.windows[tid].Some? ==> True(p.windows[tid].value)
    ensures AllTrue(On(Run(p, es).delivered, tid))
    decreases |es|
  {
    hide Step, GoodPath, On, Resets, True, InReach;
    if |es| == 0 {
      OnNothing(tid);
    } else {
      StepGood(p, es[0]);
      var o := Step(p, es[0]);
      Tids(p);
      Tids(o.path);
      StepTrue(p, es[0], tid);
      RunTrue(o.path, es[1..], tid);
      OnConcat(o.delivered, Run(o.path, es[1..]).delivered, tid);
    }
  }

  /** The frames a window releases over such a run, in strictly increasing order of the sender's numbers. */
  lemma DeliveredInSenderOrder(p: Path, es: seq<Event>, tid: nat)
    requires GoodPath(p) && tid < TIDS && p.windows[tid].Some? && True(p.windows[tid].value)
    requires (forall e :: e in es ==> !Resets(e, tid)) && RunInReach(p, es, tid)
    ensures var rs := On(Run(p, es).delivered, tid);
      forall i, j :: 0 <= i < j < |rs| ==> rs[i].frame.number < rs[j].frame.number
  {
    hide Run, On, RunInReach, True, GoodPath, Resets;
    Tids(p);
    Tids(Run(p, es).path);
    RunOrdered(p, es, tid);
    RunTrue(p, es, tid);
  }
}
