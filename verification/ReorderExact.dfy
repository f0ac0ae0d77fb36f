/** Exactly what the reorder windows release, keep, free and pass over, in one operation and over runs. */
module ReorderExact {
  import opened Options
  import opened ReorderSpec
  import opened ReorderRuns

  // An arriving frame.

  /** A sequence number is stale exactly when none of the 2048 numbers from the head on agrees with it; else the
      frame is given the one that does. */
  lemma StaleExactly(w: Window, sn: Sn)
    ensures Stale(w, sn) <==> forall m :: w.head <= m < w.head + 2048 ==> m % MODULUS != sn
    ensures !Stale(w, sn) ==> w.head <= Number(w, sn) < w.head + 2048 && Number(w, sn) % MODULUS == sn
  {
    NumberAgrees(w, sn);
    forall m | w.head <= m < w.head + 2048 && m % MODULUS == sn
      ensures !Stale(w, sn)
    {
      Congruent(m, Number(w, sn));
    }
  }

  /** What is there once the frame is in: the frame that holds a number keeps it. */
  function With(w: Window, n: nat, f: Frame): map<nat, Frame> {
    if n in w.held then w.held else w.held[n := f]
  }

  /** These are the frames with numbers below h, in order. */
  ghost predicate AllBelow(rs: seq<Released>, all: map<nat, Frame>, h: nat) {
    && (forall r :: r in rs ==> r.num < h && r.num in all && all[r.num] == r.frame)
    && (forall k :: k in all && k < h ==> Released(k, all[k]) in rs)
    && (forall i, j :: 0 <= i < j < |rs| ==> rs[i].num < rs[j].num)
  }

  lemma {:induction false} InOrderHas(held: map<nat, Frame>, a: nat, b: nat, k: nat)
    requires a <= k < b && k in held
    ensures Released(k, held[k]) in InOrder(held, a, b)
    decreases b - a
  {
    if k > a {
      InOrderHas(held, a + 1, b, k);
    }
  }

  lemma ReleaseExact(w: Window, all: map<nat, Frame>, h: nat, freed: seq<Frame>)
    requires forall k :: k in all ==> k >= w.head
    ensures AllBelow(Release(w, all, h, freed).released, all, h)
    ensures forall k :: k in Release(w, all, h, freed).window.held <==> k in all && k >= h
    ensures forall k :: k in all && k >= h ==> Release(w, all, h, freed).window.held[k] == all[k]
  {
    hide InOrder;
    InOrderIncreasing(all, w.head, h);
    forall k | k in all && k < h
      ensures Released(k, all[k]) in InOrder(all, w.head, h)
    {
      InOrderHas(all, w.head, h, k);
    }
  }

  /** A frame that is not stale, given the number n. The window slides only so far that n is its last number, then past
      the frames that are there; it stops at the first number that is not. All frames below the new head are released,
      the others stay, and the frame is freed if and only if its number was taken. */
  lemma InputExact(w: Window, f: Frame)
    requires Good(w) && !Stale(w, f.Sn())
    ensures var n := Number(w, f.Sn()); var all := With(w, n, f); var o := Input(w, f);
            var slid := if n < w.head + w.size then w.head else n + 1 - w.size;
      && slid <= o.window.head && (forall k :: slid <= k < o.window.head ==> k in all) && o.window.head !in all
      && AllBelow(o.released, all, o.window.head)
      && (forall k :: k in o.window.held <==> k in all && k >= o.window.head)
      && (forall k :: k in o.window.held ==> o.window.held[k] == all[k])
      && o.window.size == w.size && o.freed == if n in w.held then [f] else []
  {
    hide InOrder, From, RunEnd, AllBelow, Number;
    SizeOf(w);
    var n := Number(w, f.Sn());
    NumberAgrees(w, f.Sn());
    var all, floor := Insert(w.held, n, f), Floor(w, n);
    var e := RunEnd(all, floor, floor + w.size);
    RunIsHeld(all, floor, floor + w.size);
    InputWindow(w, f, n, e);
    assert e !in all;
    ReleaseExact(w, all, e, if n in w.held then [f] else []);
  }

  /** A stale frame is freed and changes nothing. */
  lemma StaleFreed(w: Window, f: Frame)
    requires Good(w) && Stale(w, f.Sn())
    ensures Input(w, f) == Outcome(w, [], [f])
  {
    hide Stale;
  }

  /** No number is given up but by a frame a window size ahead of it. */
  lemma InputPasses(w: Window, f: Frame, k: nat)
    requires Good(w) && w.head <= k < Input(w, f).window.head && forall r :: r in Input(w, f).released ==> r.num != k
    ensures !Stale(w, f.Sn()) && k + w.size <= Number(w, f.Sn()) && k !in w.held
  {
    hide Input, Number, Stale, Good;
    if Stale(w, f.Sn()) {
      StaleFreed(w, f);
    } else {
      InputExact(w, f);
      var all := With(w, Number(w, f.Sn()), f);
      assert k !in all;
    }
  }

  // The hole timer on one window.

  /** The number of the first frame held, and the end of what the timer releases. */
  lemma FlushAt(w: Window, room: nat) returns (first: nat, e: nat)
    requires Good(w) && |w.held| > 0
    ensures w.head <= first <= e <= first + room && first in w.held && forall k :: k in w.held ==> first <= k
    ensures (forall k :: first <= k < e ==> k in w.held) && (e < first + room ==> e !in w.held)
    ensures Flush(w, room) == Release(w, w.held, e, [])
  {
    hide First, RunEnd, Release, Good;
    FirstFound(w);
    SizeOf(w);
    WithinBound(w);
    var bound := w.head + w.size;
    first := First(w.held, w.head, bound);
    var limit := if room < bound - first then first + room else bound;
    e := RunEnd(w.held, first, limit);
    RunIsHeld(w.held, first, limit);
  }

  lemma RunReleased(w: Window, first: nat, e: nat)
    requires w.head <= first <= e && (forall k :: k in w.held ==> first <= k) && forall k :: first <= k < e ==> k in w.held
    ensures var o := Release(w, w.held, e, []);
      |o.released| == e - first
      && forall i :: 0 <= i < |o.released| ==> o.released[i] == Released(first + i, w.held[first + i])
  {
    hide InOrder;
    InOrderSplit(w.held, w.head, first, e);
    InOrderEmpty(w.held, w.head, first);
    InOrderFull(w.held, first, e);
    assert [] + InOrder(w.held, first, e) == InOrder(w.held, first, e);
  }

  /** The timer gives up the numbers below the first held frame and no others; it releases the run that starts there, up
      to the first gap or as many frames as there is room for. */
  lemma FlushExact(w: Window, room: nat)
    requires Good(w) && |w.held| > 0
    ensures var o := Flush(w, room); var first := o.window.head - |o.released|;
      && o.window.head >= |o.released| && first in w.held && (forall k :: k in w.held ==> first <= k)
      && (forall i :: 0 <= i < |o.released| ==> first + i in w.held && o.released[i] == Released(first + i, w.held[first + i]))
      && |o.released| <= room && (|o.released| < room ==> o.window.head !in w.held)
      && (forall k :: k in o.window.held <==> k in w.held && k >= o.window.head)
      && (forall k :: k in o.window.held ==> o.window.held[k] == w.held[k])
      && o.window.size == w.size && o.freed == []
  {
    hide InOrder, Flush, Good;
    var first, e := FlushAt(w, room);
    RunReleased(w, first, e);
  }

  lemma WithinBound(w: Window)
    requires Good(w)
    ensures forall k :: k in w.held ==> w.head <= k < w.head + w.size
  {
  }

  lemma {:induction false} InOrderFull(held: map<nat, Frame>, a: nat, b: nat)
    requires a <= b && forall k :: a <= k < b ==> k in held
    ensures |InOrder(held, a, b)| == b - a
    ensures forall i :: 0 <= i < b - a ==> InOrder(held, a, b)[i] == Released(a + i, held[a + i])
    decreases b - a
  {
    if a < b {
      InOrderFull(held, a + 1, b);
      var rest := InOrder(held, a + 1, b);
      assert InOrder(held, a, b) == [Released(a, held[a])] + rest;
    }
  }

  lemma FlushPasses(w: Window, room: nat, k: nat)
    requires Good(w) && w.head <= k < Flush(w, room).window.head
    ensures (exists r :: r in Flush(w, room).released && r.num == k) || (|w.held| > 0 && forall j :: j in w.held ==> k < j)
  {
    hide Flush, Good;
    if |w.held| == 0 {
      NothingFlushed(w, room);
    } else {
      FlushExact(w, room);
      var o := Flush(w, room);
      var first := o.window.head - |o.released|;
      if k >= first {
        assert o.released[k - first] in o.released;
      }
    }
  }

  lemma NothingFlushed(w: Window, room: nat)
    requires |w.held| == 0
    ensures Flush(w, room) == Outcome(w, [], [])
  {
  }

  // Over runs.

  /** How this event gives up the number k of a window: by a frame a window size ahead, or by the timer while a later
      frame is held. */
  ghost predicate GivesUp(w: Window, e: Event, k: nat) {
    match e
    case Receive(_, frame) => !Stale(w, frame.Sn()) && k + w.size <= ReorderSpec.Number(w, frame.Sn()) && k !in w.held
    case TimerFires => |w.held| > 0 && forall j :: j in w.held ==> k < j
    case _ => false
  }

  /** This number is released. */
  ghost predicate Out(rs: seq<Released>, k: nat) {
    exists r :: r in rs && r.num == k
  }

  lemma {:induction false} FlushAllPasses(ws: seq<Option<Window>>, tid: nat, room: nat, t: nat, k: nat)
    requires AllGood(ws) && tid <= |ws| && t < |ws| && ws[t].Some?
    ensures FlushAll(ws, tid, room).0[t].Some?
    ensures ws[t].value.head <= k < FlushAll(ws, tid, room).0[t].value.head ==>
      Out(On(FlushAll(ws, tid, room).1, t), k) || GivesUp(ws[t].value, TimerFires, k)
    decreases |ws| - tid
  {
    hide Good, Flush, On, Tagged, GivesUp, Out, AllGood;
    GoodAt(ws, t);
    if tid < |ws| && ws[tid].None? {
      FlushAllPasses(ws, tid + 1, room, t, k);
    } else if tid < |ws| {
      GoodAt(ws, tid);
      var o := Flush(ws[tid].value, room);
      FlushOne(ws[tid].value, room);
      PutGood(ws, tid, Some(o.window));
      var between := ws[tid := Some(o.window)];
      FlushAllPasses(between, tid + 1, room - |o.released|, t, k);
      var rest := FlushAll(between, tid + 1, room - |o.released|);
      OnConcat(Tagged(tid, o.released), rest.1, t);
      OnTagged(tid, o.released, t);
      OutConcat(if t == tid then o.released else [], On(rest.1, t), k);
      if t == tid {
        OneFlushPasses(ws[t].value, room, k);
        FlushAllAfter(between, tid + 1, room - |o.released|, t);
      }
    }
  }

  lemma OneFlushPasses(w: Window, room: nat, k: nat)
    requires Good(w)
    ensures w.head <= k < Flush(w, room).window.head ==> Out(Flush(w, room).released, k) || GivesUp(w, TimerFires, k)
  {
    hide Good, Flush;
    if w.head <= k < Flush(w, room).window.head {
      FlushPasses(w, room, k);
    }
  }

  lemma OutConcat(p: seq<Released>, q: seq<Released>, k: nat)
    ensures Out(p + q, k) <==> Out(p, k) || Out(q, k)
  {
  }

  /** The pass of the timer does not come back to a window. */
  lemma {:induction false} FlushAllAfter(ws: seq<Option<Window>>, tid: nat, room: nat, t: nat)
    requires AllGood(ws) && t < tid <= |ws|
    ensures FlushAll(ws, tid, room).0[t] == ws[t]
    decreases |ws| - tid
  {
    hide Good, Flush, Tagged, AllGood;
    if tid < |ws| && ws[tid].None? {
      FlushAllAfter(ws, tid + 1, room, t);
    } else if tid < |ws| {
      GoodAt(ws, tid);
      var o := Flush(ws[tid].value, room);
      FlushOne(ws[tid].value, room);
      PutGood(ws, tid, Some(o.window));
      FlushAllAfter(ws[tid := Some(o.window)], tid + 1, room - |o.released|, t);
    }
  }

  lemma StepPasses(p: Path, e: Event, tid: nat, k: nat)
    requires GoodPath(p) && tid < TIDS && !Resets(e, tid) && p.windows[tid].Some?
    ensures Step(p, e).path.windows[tid].Some?
    ensures p.windows[tid].value.head <= k < Step(p, e).path.windows[tid].value.head ==>
      Out(On(Step(p, e).delivered, tid), k) || (GivesUp(p.windows[tid].value, e, k) && (e.Receive? ==> e.tid == tid))
  {
    hide Good, Input, FreshWindow, FlushAll, Tagged, On, Stale, AllStored, AllGood, Out;
    match e
    case Setup(_, _, _, _) =>
    case Teardown(_) =>
    case TeardownAll =>
    case Receive(t, frame) =>
      if t == tid {
        GoodAt(p.windows, t);
        SizeOf(p.windows[t].value);
        OnTagged(t, Input(p.windows[t].value, frame).released, tid);
        ArrivalPasses(p.windows[t].value, frame, k);
      }
    case TimerFires =>
      FlushAllPasses(p.windows, 0, SLOTS, tid, k);
  }

  lemma ArrivalPasses(w: Window, f: Frame, k: nat)
    requires Good(w)
    ensures w.head <= k < Input(w, f).window.head ==>
      Out(Input(w, f).released, k) || (!Stale(w, f.Sn()) && k + w.size <= ReorderSpec.Number(w, f.Sn()) && k !in w.held)
  {
    hide Good, Input, Stale;
    SizeOf(w);
    if w.head <= k < Input(w, f).window.head && !Out(Input(w, f).released, k) {
      InputPasses(w, f, k);
    }
  }

  /** Over every run without a reset of the TID: a number the head has moved past was released, or there is the one
      event that gave it up: a frame at least a window size ahead of it, or the timer while a later frame was held. */
  lemma {:induction false} RunPasses(p: Path, es: seq<Event>, tid: nat, k: nat) returns (i: nat)
    requires GoodPath(p) && tid < TIDS && p.windows[tid].Some? && forall e :: e in es ==> !Resets(e, tid)
    ensures Run(p, es).path.windows[tid].Some?
    ensures p.windows[tid].value.head <= k < Run(p, es).path.windows[tid].value.head ==>
      Out(On(Run(p, es).delivered, tid), k)
      || (i < |es| && var w := Run(p, es[..i]).path.windows[tid]; w.Some? && GivesUp(w.value, es[i], k) && (es[i].Receive? ==> es[i].tid == tid))
    decreases |es|
  {
    hide Step, GoodPath, On, Resets, Out, GivesUp, AllGood;
    i := 0;
    if |es| > 0 {
      StepGood(p, es[0]);
      var o := Step(p, es[0]);
      Tids(p);
      Tids(o.path);
      StepPasses(p, es[0], tid, k);
      var j := RunPasses(o.path, es[1..], tid, k);
      var rest := Run(o.path, es[1..]);
      OnConcat(o.delivered, rest.delivered, tid);
      OutConcat(On(o.delivered, tid), On(rest.delivered, tid), k);
      if k >= o.path.windows[tid].value.head && j < |es| - 1 {
        i := j + 1;
        assert es[..i][1..] == es[1..][..j];
      } else {
        assert Run(p, []).path == p;
        assert es[..0] == [];
      }
    }
  }

  // The hole timer over all windows, and when it is set.

  /** One firing hands up at most 64 frames, over all windows together. */
  lemma {:induction false} FlushAllShares(ws: seq<Option<Window>>, tid: nat, room: nat)
    requires AllGood(ws) && tid <= |ws|
    ensures |FlushAll(ws, tid, room).1| <= room
    decreases |ws| - tid
  {
    hide Good, Flush, AllGood;
    if tid < |ws| && ws[tid].None? {
      FlushAllShares(ws, tid + 1, room);
    } else if tid < |ws| {
      GoodAt(ws, tid);
      var o := Flush(ws[tid].value, room);
      FlushOne(ws[tid].value, room);
      PutGood(ws, tid, Some(o.window));
      FlushAllShares(ws[tid := Some(o.window)], tid + 1, room - |o.released|);
    }
  }

  /** An arrival sets the timer exactly if it leaves a frame held in its window, and never stops it; a firing leaves it
      set exactly if a frame is still held. */
  lemma TimerSetExactly(p: Path, tid: nat, frame: Frame)
    requires GoodPath(p) && tid < TIDS
    ensures var q := Step(p, Receive(tid, frame)).path;
      q.armed <==> p.armed || (q.windows[tid].Some? && |q.windows[tid].value.held| > 0)
    ensures var q := Step(p, TimerFires).path; q.armed <==> AllStored(q.windows) > 0
    ensures |Step(p, TimerFires).delivered| <= SLOTS
  {
    hide Good, Input, FlushAll, AllStored, AllGood, Tagged, Stale;
    FlushAllShares(p.windows, 0, SLOTS);
    if p.windows[tid].Some? {
      var w := p.windows[tid].value;
      GoodAt(p.windows, tid);
      SizeOf(w);
      if Stale(w, frame.Sn()) {
        StaleFreed(w, frame);
        HeldCounted(p.windows, tid);
      }
    }
  }

  lemma HeldCounted(ws: seq<Option<Window>>, tid: nat)
    requires tid < |ws| && ws[tid].Some?
    ensures |ws[tid].value.held| > 0 ==> AllStored(ws) > 0
  {
    UpdateSums(ws, tid, None);
  }

  // What does not go through a window.

  /** A frame of a TID without a window goes straight on and changes nothing. */
  lemma StraightOn(p: Path, tid: nat, frame: Frame)
    requires GoodPath(p) && (tid >= TIDS || p.windows[tid].None?)
    ensures Step(p, Receive(tid, frame)) == Output(p, [Direct(frame)], multiset{})
  {
    hide AllGood, AllStored;
  }

  /** The start and the end of an agreement hand nothing up: what its window held is freed, all of it and nothing else, and
      the other windows stay as they are. Without memory for a new window nothing happens. */
  lemma AgreementsFree(p: Path, tid: nat, ssn: nat, asked: nat, memory: bool)
    requires GoodPath(p) && tid < TIDS
    ensures var o := Step(p, Setup(tid, ssn, asked, memory));
      && o.delivered == [] && o.freed == (if p.windows[tid].Some? then HeldBag(p.windows[tid]) else multiset{})
      && (if p.windows[tid].Some? || memory then o.path.windows[tid].Some? else o.path == p)
      && forall t :: 0 <= t < TIDS && t != tid ==> o.path.windows[t] == p.windows[t]
    ensures var o := Step(p, Teardown(tid));
      && o.delivered == [] && o.freed == HeldBag(p.windows[tid]) && o.path.windows[tid].None?
      && forall t :: 0 <= t < TIDS && t != tid ==> o.path.windows[t] == p.windows[t]
    ensures var o := Step(p, TeardownAll);
      o.delivered == [] && o.freed == AllHeld(p.windows) && forall t :: 0 <= t < TIDS ==> o.path.windows[t].None?
  {
    hide Good, AllStored, AllHeld, FreshWindow, AllGood, Held, Bag;
    EmptySlot(None);
  }

  // The start of an agreement.

  /** The size of the window an agreement asks for: 1 to 64, and 64 for anything else. */
  function WindowSize(asked: nat): nat {
    if 1 <= asked <= 64 then asked else 64
  }

  /** After an agreement the frame with its starting number is the next one due; frames up to a window size ahead of it
      wait for it, and the first one further ahead makes the window give it up. */
  lemma AgreementWindow(p: Path, tid: nat, ssn: Sn, asked: nat, frame: Frame, ahead: nat)
    requires GoodPath(p) && tid < TIDS && frame.number == ssn + ahead && ahead <= WindowSize(asked)
    ensures var q := Step(p, Setup(tid, ssn, asked, true)).path;
      && GoodPath(q) && q.windows[tid].Some? && q.windows[tid].value.held == map[]
      && var o := Input(q.windows[tid].value, frame);
        if ahead == 0 then o.released == [Released(ssn, frame)] && o.window.head == ssn + 1
        else if ahead < WindowSize(asked) then o.released == [] && o.window.head == ssn && o.window.held == map[ssn + ahead := frame]
        else o.window.head > ssn && o.released == if asked == 1 then [Released(ssn + 1, frame)] else []
  {
    hide Good, AllStored, AllGood, Input, HeldBag, Stale, ReorderSpec.Number;
    StepGood(p, Setup(tid, ssn, asked, true));
    var w := FreshWindow(ssn, asked);
    assert w == Window(ssn, WindowSize(asked), map[]);
    FreshGood(ssn, asked);
    FirstArrival(w, frame, ahead);
  }

  lemma FirstArrival(w: Window, frame: Frame, ahead: nat)
    requires Good(w) && w.held == map[] && frame.number == w.head + ahead && ahead <= w.size
    ensures var o := Input(w, frame); var n := w.head + ahead;
      if ahead == 0 then o.released == [Released(n, frame)] && o.window.head == n + 1
      else if ahead < w.size then o.released == [] && o.window.head == w.head && o.window.held == map[n := frame]
      else o.window.head > w.head && o.released == if w.size == 1 then [Released(n, frame)] else []
  {
    hide Good, Input, Stale, ReorderSpec.Number;
    SizeOf(w);
    NumberIsTrue(w, frame);
    var n := w.head + ahead;
    assert ReorderSpec.Number(w, frame.Sn()) == n && !Stale(w, frame.Sn());
    InputExact(w, frame);
    var o := Input(w, frame);
    var all := With(w, n, frame);
    assert all == map[n := frame];
    var slid := if n < w.head + w.size then w.head else n + 1 - w.size;
    assert o.window.head > slid ==> slid in all;
    assert o.window.head > slid + 1 ==> slid + 1 in all;
    OnlyOne(o.released, n, frame, o.window.head);
    assert o.window.held == if n >= o.window.head then map[n := frame] else map[];
  }

  lemma OnlyOne(rs: seq<Released>, n: nat, frame: Frame, h: nat)
    requires AllBelow(rs, map[n := frame], h)
    ensures rs == if n < h then [Released(n, frame)] else []
  {
    forall i | 0 <= i < |rs|
      ensures rs[i] == Released(n, frame) && n < h
    {
      assert rs[i] in rs;
    }
    assert |rs| >= 2 ==> rs[0].num < rs[1].num;
    assert n in map[n := frame];
    if n < h {
      assert Released(n, frame) in rs;
    }
  }
}
