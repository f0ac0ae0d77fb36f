/** The reorder window the driver keeps: 64 slots indexed by sequence number modulo 64. */
module Reorder {
  import opened Options
  import opened ReorderSpec
  import opened ReorderRuns

  type Slots = s: seq<Option<Frame>> | |s| == SLOTS witness seq(SLOTS, _ => None)

  function Slot(k: nat): (i: nat)
    ensures i < SLOTS
  {
    k % SLOTS
  }

  function At(held: map<nat, Frame>, k: nat): Option<Frame> {
    if k in held then Some(held[k]) else None
  }

  /** The slots hold the frames numbered from head to head + 63, each in the slot of its number. */
  ghost predicate Ring(head: nat, held: map<nat, Frame>, slots: Slots) {
    && Within(held, head, head + SLOTS)
    && forall k :: head <= k < head + SLOTS ==> slots[Slot(k)] == At(held, k)
  }

  lemma SlotOfSn(k: nat)
    ensures k % MODULUS % SLOTS == Slot(k)
  {
  }

  lemma NextSn(k: nat)
    ensures (k % MODULUS + 1) % MODULUS == (k + 1) % MODULUS
  {
  }

  lemma Distance(h: nat, t: nat)
    requires h <= t < h + MODULUS
    ensures (t % MODULUS - h % MODULUS) % MODULUS == t - h
  {
    var d := t % MODULUS - h % MODULUS;
    assert d == t - h || d == t - h - MODULUS;
  }

  lemma SlotsApart(k: nat, l: nat)
    requires k < l < k + SLOTS
    ensures Slot(k) != Slot(l)
  {
  }

  lemma RingAdvance(head: nat, held: map<nat, Frame>, slots: Slots)
    requires Ring(head, held, slots)
    ensures Ring(head + 1, From(held, head + 1), slots[Slot(head) := None])
    ensures |From(held, head + 1)| == if head in held then |held| - 1 else |held|
  {
    hide Slot, From;
    var rest := From(held, head + 1);
    var after := slots[Slot(head) := None];
    forall k | head + 1 <= k < head + 1 + SLOTS
      ensures after[Slot(k)] == At(rest, k)
    {
      if k < head + SLOTS {
        SlotsApart(head, k);
      } else {
        SlotWraps(head);
      }
    }
    assert rest.Keys == held.Keys - {head};
    assert |rest| == |rest.Keys| && |held| == |held.Keys|;
  }

  lemma SlotWraps(k: nat)
    ensures Slot(k + SLOTS) == Slot(k)
  {
  }

  lemma RingInsert(head: nat, held: map<nat, Frame>, slots: Slots, n: nat, f: Frame)
    requires Ring(head, held, slots) && head <= n < head + SLOTS && n !in held
    ensures Ring(head, held[n := f], slots[Slot(n) := Some(f)])
    ensures |held[n := f]| == |held| + 1
  {
    hide Slot;
    forall k | head <= k < head + SLOTS
      ensures slots[Slot(n) := Some(f)][Slot(k)] == At(held[n := f], k)
    {
      if k < n {
        SlotsApart(k, n);
      } else if k > n {
        SlotsApart(n, k);
      }
    }
  }

  /** What the window holds, and what was taken out of it, once its head has moved to `head`. */
  ghost predicate Progress(start: nat, held: map<nat, Frame>, head: nat, headSn: nat, stored: nat, slots: Slots, out: seq<Frame>) {
    && start <= head
    && headSn == head % MODULUS
    && Ring(head, From(held, head), slots)
    && stored == |From(held, head)|
    && out == Frames(InOrder(held, start, head))
    && |out| + stored == |held|
  }

  lemma ProgressStep(start: nat, held: map<nat, Frame>, head: nat, headSn: nat, stored: nat, slots: Slots, out: seq<Frame>)
    requires Progress(start, held, head, headSn, stored, slots, out)
    ensures headSn % SLOTS == Slot(head) && slots[Slot(head)] == At(held, head)
    ensures head in held ==> stored > 0
    ensures Progress(start, held, head + 1, (headSn + 1) % MODULUS, if head in held then stored - 1 else stored,
                     slots[Slot(head) := None], if head in held then out + [held[head]] else out)
  {
    hide Slot, InOrder, Frames;
    var here := From(held, head);
    SlotOfSn(head);
    NextSn(head);
    RingAdvance(head, here, slots);
    assert From(here, head + 1) == From(held, head + 1);
    InOrderSplit(held, start, head, head + 1);
    InOrderOne(held, head);
    FramesConcat(InOrder(held, start, head), InOrder(held, head, head + 1));
    FramesOne(held, head);
  }

  lemma FramesOne(held: map<nat, Frame>, k: nat)
    ensures Frames(if k in held then [Released(k, held[k])] else []) == if k in held then [held[k]] else []
  {
  }

  lemma {:induction false} RunEndIs(held: map<nat, Frame>, a: nat, e: nat, b: nat)
    requires a <= e <= b && (forall k :: a <= k < e ==> k in held) && (e == b || e !in held)
    ensures RunEnd(held, a, b) == e
    decreases e - a
  {
    if a < e {
      RunEndIs(held, a + 1, e, b);
    }
  }

  lemma {:induction false} FirstIs(held: map<nat, Frame>, a: nat, e: nat, b: nat)
    requires a <= e <= b && (forall k :: a <= k < e ==> k !in held) && (e == b || e in held)
    ensures First(held, a, b) == e
    decreases e - a
  {
    if a < e {
      FirstIs(held, a + 1, e, b);
    }
  }

  class RxReorder {
    var headSn: nat
    var bufSize: nat
    var stored: nat
    const buf: array<Option<Frame>>
    ghost var window: Window

    ghost predicate Valid()
      reads this, buf
    {
      && buf.Length == SLOTS
      && Good(window)
      && headSn == window.head % MODULUS && bufSize == window.size && stored == |window.held|
      && Ring(window.head, window.held, buf[..])
    }

    /** A zeroed window; Setup gives it its start. */
    constructor ()
      ensures buf.Length == SLOTS && fresh(buf) && (forall i :: 0 <= i < SLOTS ==> buf[i] == None)
    {
      buf := new Option<Frame>[SLOTS](_ => None);
      headSn, bufSize, stored := 0, 0, 0;
      window := Window(0, 1, map[]);
      new;
      assert forall i :: 0 <= i < SLOTS ==> buf[i] == None;
    }

    /** What the head of the window currently holds is taken out and the head moves on. */
    method Advance(out: seq<Frame>, ghost start: nat, ghost held: map<nat, Frame>, ghost head: nat) returns (out': seq<Frame>)
      requires buf.Length == SLOTS && Progress(start, held, head, headSn, stored, buf[..], out)
      modifies this`headSn, this`stored, buf
      ensures Progress(start, held, head + 1, headSn, stored, buf[..], out')
      ensures |out'| == if head in held then |out| + 1 else |out|
    {
      hide Progress, Ring;
      ProgressStep(start, held, head, headSn, stored, buf[..], out);
      ghost var before := buf[..];
      var hidx := headSn % SLOTS;
      out' := out;
      if buf[hidx].Some? {
        out' := out + [buf[hidx].value];
        buf[hidx] := None;
        stored := stored - 1;
      }
      headSn := (headSn + 1) % MODULUS;
      assert buf[..] == before[Slot(head) := None];
    }

    /** Whether the slot of the head is occupied. */
    method Occupied(out: seq<Frame>, ghost start: nat, ghost held: map<nat, Frame>, ghost head: nat) returns (b: bool)
      requires buf.Length == SLOTS && Progress(start, held, head, headSn, stored, buf[..], out)
      ensures b <==> head in held
    {
      hide Progress, Ring;
      ProgressStep(start, held, head, headSn, stored, buf[..], out);
      b := buf[headSn % SLOTS].Some?;
    }

    /** Slides the head up to the target, taking out the frames that fall out of the window. */
    method Slide(target: nat, ghost w: Window, ghost end: nat) returns (out: seq<Frame>)
      requires Valid() && w == window && target == end % MODULUS && w.head <= end < w.head + 2048
      modifies this`headSn, this`stored, buf
      ensures Progress(w.head, w.held, end, headSn, stored, buf[..], out)
    {
      hide Ring, InOrder, From, Good;
      StartProgress(w, buf[..]);
      out := [];
      ghost var head := w.head;
      Distance(head, end);
      while (target - headSn) % MODULUS != 0 && (target - headSn) % MODULUS < 2048 && |out| < SLOTS
        invariant w.head <= head <= end && window == w && headSn == head % MODULUS
        invariant (target - headSn) % MODULUS == end - head
        invariant Progress(w.head, w.held, head, headSn, stored, buf[..], out)
        decreases end - head
      {
        out := Advance(out, w.head, w.held, head);
        head := head + 1;
        hide Progress;
        HeadOf(w.head, w.held, head, headSn, stored, buf[..], out);
        Distance(head, end);
      }
      AtMostHeld(w, head, headSn, stored, buf[..], out);
    }
  
    /** Takes out the run that starts at the head, as far as the room allows. */
    method ReleaseRun(out0: seq<Frame>, room: nat, ghost start: nat, ghost held: map<nat, Frame>, ghost head0: nat, ghost bound: nat)
      returns (out: seq<Frame>, ghost e: nat)
      requires buf.Length == SLOTS && Progress(start, held, head0, headSn, stored, buf[..], out0)
      requires head0 <= bound && (forall k :: k in held ==> k < bound) && |out0| <= room
      modifies this`headSn, this`stored, buf
      ensures head0 <= e <= bound && Progress(start, held, e, headSn, stored, buf[..], out)
      ensures e == RunEnd(held, head0, if room - |out0| < bound - head0 then head0 + room - |out0| else bound)
      ensures |out| == |out0| + e - head0
    {
      hide Progress, RunEnd;
      out, e := out0, head0;
      ghost var limit := if room - |out0| < bound - head0 then head0 + room - |out0| else bound;
      while stored > 0 && |out| < room
        invariant head0 <= e <= limit && |out| == |out0| + e - head0
        invariant forall k :: head0 <= k < e ==> k in held
        invariant Progress(start, held, e, headSn, stored, buf[..], out)
        decreases limit - e
      {
        var occupied := Occupied(out, start, held, e);
        if !occupied {
          break;
        }
        out := Advance(out, start, held, e);
        e := e + 1;
      }
      if e < limit && stored == 0 {
        NoneLeft(start, held, e, headSn, stored, buf[..], out);
      }
      RunEndIs(held, head0, e, limit);
    }
  
    /** Puts a frame in its slot, unless the slot is taken. */
    method Store(frame: Frame, out: seq<Frame>, ghost w: Window, ghost n: nat, ghost end: nat) returns (freed: seq<Frame>)
      requires buf.Length == SLOTS && Good(w) && n == Number(w, frame.Sn()) && end == Floor(w, n)
      requires Progress(w.head, w.held, end, headSn, stored, buf[..], out)
      modifies this`stored, buf
      ensures Progress(w.head, Insert(w.held, n, frame), end, headSn, stored, buf[..], out)
      ensures freed == if n in w.held then [frame] else []
      ensures |out| <= SLOTS
    {
      hide Good, Progress, Insert, Number, Floor;
      NumberAgrees(w, frame.Sn());
      StoreSlot(w, n, frame, end, headSn, stored, buf[..], out);
      freed := [];
      var idx := frame.Sn() % SLOTS;
      if buf[idx].Some? {
        freed := [frame];
      } else {
        ghost var slots := buf[..];
        buf[idx] := Some(frame);
        assert buf[..] == slots[Slot(n) := Some(frame)];
        stored := stored + 1;
      }
      HeadOf(w.head, Insert(w.held, n, frame), end, headSn, stored, buf[..], out);
    }

    /** A frame that is not stale: slide, store, release the run at the head. */
    method Accept(frame: Frame, rel: nat) returns (out: seq<Frame>, freed: seq<Frame>)
      requires Valid() && rel == Ahead(window.head, frame.Sn()) < 2048
      modifies this, buf
      ensures Valid()
      ensures window == Input(old(window), frame).window
      ensures out == Frames(Input(old(window), frame).released)
      ensures freed == Input(old(window), frame).freed
    {
      hide Good, RunEnd, Progress, Ring, Insert, From, InOrder, Frames;
      ghost var w := window;
      SizeOf(w);
      NumberAgrees(w, frame.Sn());
      ghost var n := Number(w, frame.Sn());
      ghost var end := Floor(w, n);
      StartProgress(w, buf[..]);
      out := [];
      if rel >= bufSize {
        Shift(n, frame.Sn(), w.size);
        out := Slide((frame.Sn() + 1 - bufSize) % MODULUS, w, end);
      }
      freed := Store(frame, out, w, n, end);
      ghost var held := Insert(w.held, n, frame);
      InsertBound(w, frame, n);
      ghost var e;
      ghost var before := |out|;
      out, e := ReleaseRun(out, SLOTS, w.head, held, end, end + w.size);
      Uncapped(w.head, held, end, e, end + w.size, headSn, stored, buf[..], out, before);
      Finished(w, held, end, e, headSn, stored, buf[..], out, n, frame);
      window := Window(e, w.size, From(held, e));
    }

    /** An arriving frame: dropped when stale, else accepted. */
    method Receive(frame: Frame) returns (out: seq<Frame>, freed: seq<Frame>, needTimer: bool)
      requires Valid()
      modifies this, buf
      ensures Valid()
      ensures window == Input(old(window), frame).window
      ensures out == Frames(Input(old(window), frame).released)
      ensures freed == Input(old(window), frame).freed
      ensures needTimer <==> !Stale(old(window), frame.Sn()) && |window.held| > 0
    {
      hide RunEnd, Ring, Insert, From, InOrder, Frames;
      var rel := (frame.Sn() - headSn) % MODULUS;
      if rel >= 2048 {
        FramesNothing();
        return [], [frame], false;
      }
      out, freed := Accept(frame, rel);
      needTimer := stored > 0;
    }
  
    /** Moves the head over the gap to the first held frame; the guard never ends the loop. */
    method SkipHole(ghost w: Window) returns (ghost head: nat)
      requires buf.Length == SLOTS && stored > 0 && Good(w) && |w.held| > 0
      requires Progress(w.head, w.held, w.head, headSn, stored, buf[..], [])
      modifies this`headSn, this`stored, buf
      ensures head == First(w.held, w.head, w.head + w.size) && w.head <= head < w.head + w.size
      ensures Progress(w.head, w.held, head, headSn, stored, buf[..], [])
    {
      hide Good, First, Progress;
      FirstFound(w);
      SizeOf(w);
      ghost var bound := w.head + w.size;
      ghost var first := First(w.held, w.head, bound);
      var out := [];
      head := w.head;
      var guard := 0;
      while stored > 0 && guard < 4096
        invariant guard == head - w.head && w.head <= head <= first
        invariant forall k :: w.head <= k < head ==> k !in w.held
        invariant Progress(w.head, w.held, head, headSn, stored, buf[..], out) && out == []
        invariant stored > 0
        decreases bound - head
      {
        var occupied := Occupied(out, w.head, w.held, head);
        if occupied {
          break;
        }
        out := Advance(out, w.head, w.held, head);
        head := head + 1;
        guard := guard + 1;
        StillHeld(w, head, headSn, stored, buf[..], out);
      }
      FirstIs(w.held, w.head, head, bound);
    }

    /** The hole timer on this window: skip the gap at the head, then release at most room frames. */
    method FlushHole(room: nat) returns (out: seq<Frame>)
      requires Valid() && stored > 0
      modifies this, buf
      ensures Valid()
      ensures window == Flush(old(window), room).window
      ensures out == Frames(Flush(old(window), room).released)
    {
      hide Good, RunEnd, First, Progress, Ring, From, InOrder, Frames, Flush;
      ghost var w := window;
      SizeOf(w);
      StartProgress(w, buf[..]);
      FirstFound(w);
      ghost var head := SkipHole(w);
      ghost var e;
      out, e := ReleaseRun([], room, w.head, w.held, head, w.head + w.size);
      window := Window(e, w.size, From(w.held, e));
      Flushed(w, e, headSn, stored, buf[..], out);
      FlushIs(w, room, e);
    }

    /** Empties every slot; the frames found there are handed to the caller to free. */
    method Drain() returns (frames: seq<Frame>)
      requires Valid()
      modifies buf
      ensures multiset(frames) == Bag(Held(window))
      ensures forall i :: 0 <= i < SLOTS ==> buf[i] == None
    {
      hide Good, Ring, Bag, Held, SlotBag;
      ghost var before := buf[..];
      RingBag(window, before);
      assert before[0..] == before;
      frames := [];
      for i := 0 to SLOTS
        invariant forall k :: 0 <= k < i ==> buf[k] == None
        invariant forall k :: i <= k < SLOTS ==> buf[k] == before[k]
        invariant multiset(frames) + SlotBag(before[i..]) == SlotBag(before)
      {
        SlotBagStep(before, i);
        if buf[i].Some? {
          frames := frames + [buf[i].value];
          buf[i] := None;
        }
      }
      assert before[SLOTS..] == [];
      SlotBagEmpty([]);
    }

    /** Starts a window on empty slots. */
    method Start(ssn: nat, size: nat)
      requires buf.Length == SLOTS && (forall i :: 0 <= i < SLOTS ==> buf[i] == None)
      modifies this
      ensures Valid() && window == FreshWindow(ssn, size)
    {
      headSn := ssn % MODULUS;
      bufSize := if size == 0 || size > SLOTS then SLOTS else size;
      stored := 0;
      window := FreshWindow(ssn, size);
      SmallHead(ssn);
    }
  }

  lemma SmallHead(ssn: nat)
    ensures ssn % MODULUS % MODULUS == ssn % MODULUS
  {
  }

  function OptionBag(o: Option<Frame>): multiset<Frame> {
    if o.Some? then multiset{o.value} else multiset{}
  }

  function SlotBag(slots: seq<Option<Frame>>): multiset<Frame> {
    if |slots| == 0 then multiset{} else OptionBag(slots[0]) + SlotBag(slots[1..])
  }

  lemma SlotBagStep(slots: seq<Option<Frame>>, i: nat)
    requires i < |slots|
    ensures SlotBag(slots[i..]) == OptionBag(slots[i]) + SlotBag(slots[i + 1..])
  {
    assert slots[i..][1..] == slots[i + 1..];
  }

  lemma {:induction false} SlotBagUpdate(slots: seq<Option<Frame>>, i: nat)
    requires i < |slots|
    ensures SlotBag(slots) == OptionBag(slots[i]) + SlotBag(slots[i := None])
  {
    var after := slots[i := None];
    if i == 0 {
      assert after[1..] == slots[1..];
    } else {
      SlotBagUpdate(slots[1..], i - 1);
      assert after[1..] == slots[1..][i - 1 := None];
    }
  }

  lemma {:induction false} SlotBagEmpty(slots: seq<Option<Frame>>)
    requires forall i :: 0 <= i < |slots| ==> slots[i] == None
    ensures SlotBag(slots) == multiset{}
  {
    if |slots| > 0 {
      SlotBagEmpty(slots[1..]);
    }
  }

  /** The number in the ring that belongs to a slot. */
  lemma NumberOfSlot(head: nat, i: nat) returns (k: nat)
    requires i < SLOTS
    ensures head <= k < head + SLOTS && Slot(k) == i
  {
    k := if i >= head % SLOTS then head + i - head % SLOTS else head + i + SLOTS - head % SLOTS;
  }

  /** The slots hold exactly the held frames. */
  lemma RingBag(w: Window, slots: Slots)
    requires Good(w) && Ring(w.head, w.held, slots)
    ensures SlotBag(slots) == Bag(Held(w))
  {
    hide Ring, Bag, InOrder, SlotBag;
    RingBagFrom(w.head, w.held, slots, w.head + w.size);
  }

  lemma {:induction false} RingBagFrom(head: nat, held: map<nat, Frame>, slots: Slots, b: nat)
    requires Ring(head, held, slots) && head <= b && forall k :: k in held ==> k < b
    ensures SlotBag(slots) == Bag(InOrder(held, head, b))
    decreases b - head
  {
    hide Bag, InOrder, SlotBag, Slot, From, Frames;
    if head == b {
      forall i | 0 <= i < SLOTS
        ensures slots[i] == None
      {
        var k := NumberOfSlot(head, i);
      }
      SlotBagEmpty(slots);
      InOrderEmpty(held, head, b);
      BagNothing();
    } else {
      RingAdvance(head, held, slots);
      RingBagFrom(head + 1, From(held, head + 1), slots[Slot(head) := None], b);
      SlotBagUpdate(slots, Slot(head));
      InOrderSplit(held, head, head + 1, b);
      InOrderOne(held, head);
      InOrderSame(held, From(held, head + 1), head + 1, b);
      FramesConcat(InOrder(held, head, head + 1), InOrder(held, head + 1, b));
      BagNothing();
      if head in held {
        BagOne(Released(head, held[head]));
      }
    }
  }

  lemma BagNothing()
    ensures Bag([]) == multiset{}
  {
  }

  function OccupiedCount(slots: seq<Option<Frame>>): nat {
    if |slots| == 0 then 0 else (if slots[0].Some? then 1 else 0) + OccupiedCount(slots[1..])
  }

  lemma {:induction false} CountOfBag(slots: seq<Option<Frame>>)
    ensures |SlotBag(slots)| == OccupiedCount(slots)
  {
    if |slots| > 0 {
      CountOfBag(slots[1..]);
    }
  }

  lemma SlotHolds(w: Window, slots: Slots, i: nat)
    requires Good(w) && Ring(w.head, w.held, slots) && i < SLOTS && slots[i].Some?
    ensures var sn := slots[i].value.Sn(); sn % SLOTS == i && (sn - w.head % MODULUS) % MODULUS < w.size
  {
    hide Slot;
    var k := NumberOfSlot(w.head, i);
    assert slots[Slot(k)] == At(w.held, k);
    SlotOfSn(k);
    Distance(w.head, k);
    SlotIs(k);
  }

  lemma SlotIs(k: nat)
    ensures Slot(k) == k % SLOTS
  {
  }

  /** The slots at every rest point: an occupied slot i holds a frame whose sequence number is i modulo 64 and
      lies in the window; the counter is the number of occupied slots, at most 63. */
  lemma SlotsAtRest(w: Window, headSn: nat, stored: nat, slots: Slots)
    requires Good(w) && Ring(w.head, w.held, slots) && headSn == w.head % MODULUS && stored == |w.held|
    ensures forall i :: 0 <= i < SLOTS && slots[i].Some? ==>
      slots[i].value.Sn() % SLOTS == i && (slots[i].value.Sn() - headSn) % MODULUS < w.size
    ensures stored == OccupiedCount(slots) && stored <= 63
  {
    hide Ring, Bag, SlotBag, OccupiedCount, InOrder;
    forall i | 0 <= i < SLOTS && slots[i].Some?
      ensures slots[i].value.Sn() % SLOTS == i && (slots[i].value.Sn() - headSn) % MODULUS < w.size
    {
      SlotHolds(w, slots, i);
    }
    RingBag(w, slots);
    CountOfBag(slots);
    InOrderCount(w.held, w.head, w.head + w.size);
    BagSize(Held(w));
  }

  lemma BagSize(rs: seq<Released>)
    ensures |Bag(rs)| == |rs|
  {
  }

  /** A frame inside the window finds its slot taken only by a frame with its own sequence number. */
  lemma TakenMeansDuplicate(w: Window, slots: Slots, sn: Sn)
    requires Good(w) && Ring(w.head, w.held, slots) && (sn - w.head % MODULUS) % MODULUS < w.size
    ensures slots[sn % SLOTS].Some? ==> slots[sn % SLOTS].value.Sn() == sn
  {
    hide Ring;
    if slots[sn % SLOTS].Some? {
      SlotHolds(w, slots, sn % SLOTS);
      SameSlotSameNumber(w.head % MODULUS, sn, slots[sn % SLOTS].value.Sn());
    }
  }

  lemma SameSlotSameNumber(head: Sn, a: Sn, b: Sn)
    requires a % SLOTS == b % SLOTS && (a - head) % MODULUS < SLOTS && (b - head) % MODULUS < SLOTS
    ensures a == b
  {
  }

  lemma StillHeld(w: Window, head: nat, headSn: nat, stored: nat, slots: Slots, out: seq<Frame>)
    requires Good(w) && |w.held| > 0 && head <= First(w.held, w.head, w.head + w.size)
    requires Progress(w.head, w.held, head, headSn, stored, slots, out)
    ensures stored > 0
  {
    hide Ring, InOrder, First;
    FirstFound(w);
    assert First(w.held, w.head, w.head + w.size) in From(w.held, head);
  }

  lemma FlushIs(w: Window, room: nat, e: nat)
    requires |w.held| > 0
    requires var first, bound := First(w.held, w.head, w.head + w.size), w.head + w.size;
      first <= bound && e == RunEnd(w.held, first, if room < bound - first then first + room else bound)
    ensures Flush(w, room).window == Window(e, w.size, From(w.held, e))
    ensures Flush(w, room).released == InOrder(w.held, w.head, e)
  {
    hide First, RunEnd, From, InOrder;
  }

  lemma Flushed(w: Window, e: nat, headSn: nat, stored: nat, slots: Slots, out: seq<Frame>)
    requires Good(w) && Progress(w.head, w.held, e, headSn, stored, slots, out)
    ensures Good(Window(e, w.size, From(w.held, e))) && Ring(e, From(w.held, e), slots)
    ensures headSn == e % MODULUS && stored == |From(w.held, e)|
    ensures out == Frames(InOrder(w.held, w.head, e))
  {
    hide Ring, InOrder, Frames, Good;
    SuffixGood(w, e);
  }

  lemma FramesNothing()
    ensures Frames([]) == []
  {
  }

  lemma NoneLeft(start: nat, held: map<nat, Frame>, head: nat, headSn: nat, stored: nat, slots: Slots, out: seq<Frame>)
    requires Progress(start, held, head, headSn, stored, slots, out) && stored == 0
    ensures forall k :: k in held ==> k < head
  {
    assert From(held, head) == map[];
    assert forall k :: k in held && k >= head ==> k in From(held, head);
  }

  lemma StartProgress(w: Window, slots: Slots)
    requires Good(w) && Ring(w.head, w.held, slots)
    ensures Progress(w.head, w.held, w.head, w.head % MODULUS, |w.held|, slots, [])
  {
    hide Ring;
    assert From(w.held, w.head) == w.held;
    assert InOrder(w.held, w.head, w.head) == [] && Frames([]) == [];
  }

  lemma HeadOf(start: nat, held: map<nat, Frame>, head: nat, headSn: nat, stored: nat, slots: Slots, out: seq<Frame>)
    requires Progress(start, held, head, headSn, stored, slots, out)
    ensures headSn == head % MODULUS && |out| + stored == |held|
  {
  }

  lemma AtMostHeld(w: Window, head: nat, headSn: nat, stored: nat, slots: Slots, out: seq<Frame>)
    requires Good(w) && Progress(w.head, w.held, head, headSn, stored, slots, out)
    ensures |out| < SLOTS
  {
  }

  /** The slide target in 12 bits. */
  lemma Shift(n: nat, sn: Sn, size: nat)
    requires n % MODULUS == sn && 1 <= size <= n + 1
    ensures (sn + 1 - size) % MODULUS == (n + 1 - size) % MODULUS
  {
  }

  lemma InsertBound(w: Window, f: Frame, n: nat)
    requires Good(w) && n >= w.head
    ensures forall k :: k in Insert(w.held, n, f) ==> k < Floor(w, n) + w.size
    ensures |Insert(w.held, n, f)| <= SLOTS
  {
  }

  /** Storing a frame: its slot is occupied exactly when its number is already held. */
  lemma StoreSlot(w: Window, n: nat, f: Frame, end: nat, headSn: nat, stored: nat, slots: Slots, out: seq<Frame>)
    requires Good(w) && w.head <= n && end == Floor(w, n)
    requires Progress(w.head, w.held, end, headSn, stored, slots, out)
    ensures |Insert(w.held, n, f)| <= SLOTS
    ensures n % MODULUS % SLOTS == Slot(n)
    ensures slots[Slot(n)].Some? <==> n in w.held
    ensures n in w.held ==> Progress(w.head, Insert(w.held, n, f), end, headSn, stored, slots, out)
    ensures n !in w.held ==> Progress(w.head, Insert(w.held, n, f), end, headSn, stored + 1, slots[Slot(n) := Some(f)], out)
  {
    hide InOrder, Frames, From, Slot;
    SlotOfSn(n);
    if n !in w.held {
      var held := w.held[n := f];
      RingInsert(end, From(w.held, end), slots, n, f);
      assert From(held, end) == From(w.held, end)[n := f];
      InOrderSame(w.held, held, w.head, end);
      assert |held| == |w.held| + 1;
    }
  }

  /** The 64-entry output list never cuts the run short. */
  lemma Uncapped(start: nat, held: map<nat, Frame>, end: nat, e: nat, bound: nat,
                 headSn: nat, stored: nat, slots: Slots, out: seq<Frame>, before: nat)
    requires |held| <= SLOTS && end <= e <= bound && before <= SLOTS && |out| == before + e - end
    requires Progress(start, held, e, headSn, stored, slots, out)
    requires e == RunEnd(held, end, if SLOTS - before < bound - end then end + SLOTS - before else bound)
    ensures e == RunEnd(held, end, bound)
  {
    hide RunEnd, InOrder, Frames, Ring;
    var limit := if SLOTS - before < bound - end then end + SLOTS - before else bound;
    RunIsHeld(held, end, limit);
    if e == limit && limit < bound {
      NoneLeft(start, held, e, headSn, stored, slots, out);
    }
    RunEndIs(held, end, e, bound);
  }

  /** Once the run is released, the window is the one the definition gives. */
  lemma Finished(w: Window, held: map<nat, Frame>, end: nat, e: nat, headSn: nat, stored: nat, slots: Slots, out: seq<Frame>, n: nat, f: Frame)
    requires Good(w) && n == Number(w, f.Sn()) && !Stale(w, f.Sn()) && end == Floor(w, n) && held == Insert(w.held, n, f)
    requires Progress(w.head, held, e, headSn, stored, slots, out)
    requires e == RunEnd(held, end, end + w.size)
    ensures Good(Window(e, w.size, From(held, e))) && Ring(e, From(held, e), slots)
    ensures headSn == e % MODULUS && stored == |From(held, e)|
    ensures Input(w, f).window == Window(e, w.size, From(held, e))
    ensures out == Frames(Input(w, f).released)
  {
    hide RunEnd, Ring, InOrder, Frames, From, Floor, Number, Stale, Insert, Good;
    SizeOf(w);
    InputWindow(w, f, n, e);
  }
}

/** The receive path of the driver: a window per TID behind one lock, and the hole timer. */
module RxPath {
  import opened Options
  import opened ReorderSpec
  import opened ReorderRuns
  import opened Reorder

  ghost function ViewOf(r: RxReorder?): Option<Window>
    reads r
  {
    if r == null then None else Some(r.window)
  }

  class Receiver {
    const rxBa: array<RxReorder?>
    var armed: bool

    ghost function Windows(): set<object>
      reads this, rxBa
    {
      set t | 0 <= t < rxBa.Length && rxBa[t] != null :: rxBa[t]
    }

    ghost function Buffers(): set<object>
      reads this, rxBa
    {
      set t | 0 <= t < rxBa.Length && rxBa[t] != null :: rxBa[t].buf
    }

    /** The windows of different TIDs share nothing. */
    ghost predicate Separate()
      reads this, rxBa
    {
      forall s, t :: 0 <= s < t < rxBa.Length && rxBa[s] != null && rxBa[t] != null ==>
        rxBa[s] != rxBa[t] && rxBa[s].buf != rxBa[t].buf
    }

    ghost function View(): Path
      reads this, rxBa, Windows()
    {
      Path(seq(rxBa.Length, t requires 0 <= t < rxBa.Length reads this, rxBa, Windows() => ViewOf(rxBa[t])), armed)
    }

    ghost predicate EachValid()
      reads this, rxBa, Windows(), Buffers()
    {
      && rxBa.Length == TIDS
      && Separate()
      && forall t :: 0 <= t < TIDS && rxBa[t] != null ==> rxBa[t].Valid()
    }

    ghost predicate Valid()
      reads this, rxBa, Windows(), Buffers()
    {
      EachValid() && GoodPath(View())
    }

    constructor ()
      ensures Valid() && View() == INITIAL && fresh(rxBa)
    {
      rxBa := new RxReorder?[TIDS](_ => null);
      armed := false;
      new;
      assert View().windows == INITIAL.windows;
      NoWindows(INITIAL.windows);
    }

    /** An arriving frame: through the window of its TID if there is one, else straight on. */
    method ReorderInput(tid: nat, frame: Frame) returns (delivered: seq<Frame>, freed: seq<Frame>)
      requires Valid()
      modifies this, Windows(), Buffers()
      ensures Valid()
      ensures View() == Step(old(View()), Receive(tid, frame)).path
      ensures delivered == FramesOf(Step(old(View()), Receive(tid, frame)).delivered)
      ensures multiset(freed) == Step(old(View()), Receive(tid, frame)).freed
    {
      hide Good, Input, Stale, FramesOf, AllStored, AllGood, Ring;
      ghost var p := View();
      StepGood(p, Receive(tid, frame));
      if tid >= TIDS || rxBa[tid] == null {
        DirectFrames(frame);
        return [frame], [];
      }
      var needTimer;
      assert p.windows[tid] == Some(rxBa[tid].window);
      GoodAt(p.windows, tid);
      SizeOf(p.windows[tid].value);
      delivered, freed, needTimer := rxBa[tid].Receive(frame);
      if needTimer {
        armed := true;
      }
      TaggedList(tid, Input(p.windows[tid].value, frame).released);
      assert View().windows == p.windows[tid := Some(Input(p.windows[tid].value, frame).window)];
    }
  
    /** A block-ack agreement starts: a new or emptied window for the TID. */
    method BaSetup(tid: nat, ssn: nat, bufSize: nat, memory: bool) returns (freed: seq<Frame>)
      requires Valid()
      modifies this, rxBa, Windows(), Buffers()
      ensures Valid() && fresh(Windows() - old(Windows())) && fresh(Buffers() - old(Buffers()))
      ensures View() == Step(old(View()), Setup(tid, ssn, bufSize, memory)).path
      ensures multiset(freed) == Step(old(View()), Setup(tid, ssn, bufSize, memory)).freed
    {
      hide Good, FreshWindow, AllStored, AllGood, Bag, Held, Ring;
      ghost var p := View();
      StepGood(p, Setup(tid, ssn, bufSize, memory));
      freed := [];
      if tid >= TIDS {
        return;
      }
      if rxBa[tid] != null {
        freed := Restart(tid, ssn, bufSize);
      } else if memory {
        var r := new RxReorder();
        r.Start(ssn, bufSize);
        rxBa[tid] := r;
        assert View().windows == p.windows[tid := Some(FreshWindow(ssn, bufSize))];
      }
    }

    /** A window that is already there is emptied and started afresh. */
    method Restart(tid: nat, ssn: nat, bufSize: nat) returns (freed: seq<Frame>)
      requires EachValid() && tid < TIDS && rxBa[tid] != null
      modifies Windows(), Buffers()
      ensures EachValid() && Windows() == old(Windows()) && Buffers() == old(Buffers())
      ensures View().windows == old(View().windows)[tid := Some(FreshWindow(ssn, bufSize))]
      ensures multiset(freed) == HeldBag(old(View().windows)[tid])
    {
      hide Good, FreshWindow, Bag, Held, Ring;
      assert View().windows[tid] == Some(rxBa[tid].window);
      freed := rxBa[tid].Drain();
      rxBa[tid].Start(ssn, bufSize);
    }

    /** The agreement ends: the window goes and its frames are freed. */
    method BaTeardown(tid: nat) returns (freed: seq<Frame>)
      requires Valid()
      modifies rxBa, Buffers()
      ensures Valid() && Windows() <= old(Windows()) && Buffers() <= old(Buffers())
      ensures View() == Step(old(View()), Teardown(tid)).path
      ensures multiset(freed) == Step(old(View()), Teardown(tid)).freed
    {
      hide Good, AllStored, AllGood, Bag, Held, Ring;
      ghost var p := View();
      StepGood(p, Teardown(tid));
      freed := [];
      if tid >= TIDS {
        return;
      }
      if rxBa[tid] != null {
        freed := rxBa[tid].Drain();
        rxBa[tid] := null;
      }
      assert View().windows == p.windows[tid := None];
    }

    /** Every agreement ends. */
    method BaTeardownAll() returns (freed: seq<Frame>)
      requires Valid()
      modifies rxBa, Buffers()
      ensures Valid()
      ensures View() == Step(old(View()), TeardownAll).path
      ensures multiset(freed) == Step(old(View()), TeardownAll).freed
    {
      hide Good, AllStored, Bag, Held, HeldBag, Step, AllHeld;
      ghost var p := View();
      freed := [];
      for tid := 0 to TIDS
        invariant Valid() && Buffers() <= old(Buffers()) && armed == p.armed
        invariant forall t :: 0 <= t < tid ==> View().windows[t] == None
        invariant multiset(freed) + AllHeld(View().windows) == AllHeld(p.windows)
      {
        ghost var here := View();
        var more := BaTeardown(tid);
        TeardownStep(here, tid);
        freed := freed + more;
      }
      TeardownAllStep(p, View().windows);
    }

    /** The timer on one window; more is what it releases, held whether frames remain. */
    method FlushTid(tid: nat, room: nat) returns (out: seq<Frame>, held: bool, ghost more: seq<Delivery>)
      requires EachValid() && AllGood(View().windows) && tid < TIDS
      modifies Windows(), Buffers()
      ensures EachValid() && AllGood(View().windows) && Windows() == old(Windows()) && Buffers() == old(Buffers())
      ensures out == FramesOf(more) && |out| == |more| <= room
      ensures FlushAll(old(View().windows), tid, room).0 == FlushAll(View().windows, tid + 1, room - |more|).0
      ensures FlushAll(old(View().windows), tid, room).1 == more + FlushAll(View().windows, tid + 1, room - |more|).1
      ensures forall t :: 0 <= t < TIDS && t != tid ==> View().windows[t] == old(View().windows[t])
      ensures held <==> Stored(View().windows[tid]) > 0
    {
      hide Good, AllGood, Flush, FramesOf, Ring, FlushAll;
      ghost var here := View().windows;
      FramesOfNothing();
      FlushAllStep(here, tid, room);
      out, held, more := [], false, FlushedAt(here, tid, room).1;
      if rxBa[tid] != null {
        assert here[tid] == Some(rxBa[tid].window);
        if rxBa[tid].stored == 0 {
          NothingToFlush(rxBa[tid].window, room);
        } else {
          out := rxBa[tid].FlushHole(room);
        }
        held := rxBa[tid].stored > 0;
        TaggedList(tid, Flush(here[tid].value, room).released);
        assert View().windows == here[tid := Some(Flush(here[tid].value, room).window)];
      }
      FramesOfConcat([], more);
    }

    /** Every window in turn; the releases share one 64-entry list. */
    method FlushWindows() returns (delivered: seq<Frame>, again: bool)
      requires Valid()
      modifies Windows(), Buffers()
      ensures EachValid()
      ensures View().windows == FlushAll(old(View().windows), 0, SLOTS).0
      ensures delivered == FramesOf(FlushAll(old(View().windows), 0, SLOTS).1)
      ensures again <==> AllStored(View().windows) > 0
    {
      ghost var start := View().windows;
      hide AllStored, AllGood, FlushAll, FramesOf, Stored, EachValid;
      ghost var ds: seq<Delivery> := [];
      again := false;
      delivered := [];
      FramesOfNothing();
      FlushedRest([], [], FlushAll(start, 0, SLOTS).1);
      for tid := 0 to TIDS
        invariant EachValid() && AllGood(View().windows) && Windows() == old(Windows()) && Buffers() == old(Buffers())
        invariant |delivered| == |ds| <= SLOTS && delivered == FramesOf(ds)
        invariant FlushAll(start, 0, SLOTS).0 == FlushAll(View().windows, tid, SLOTS - |ds|).0
        invariant FlushAll(start, 0, SLOTS).1 == ds + FlushAll(View().windows, tid, SLOTS - |ds|).1
        invariant again <==> exists t :: 0 <= t < tid && Stored(View().windows[t]) > 0
      {
        var out, held;
        ghost var more;
        out, held, more := FlushTid(tid, SLOTS - |delivered|);
        FramesOfConcat(ds, more);
        FlushedRest(ds, more, FlushAll(View().windows, tid + 1, SLOTS - |ds| - |more|).1);
        ds := ds + more;
        delivered := delivered + out;
        again := again || held;
      }
      AnyStored(View().windows);
      NothingAfter(View().windows, SLOTS - |ds|);
      assert ds + [] == ds;
    }

    /** The hole timer: on every window in turn, skip the gap and release the run behind it. */
    method FlushStale() returns (delivered: seq<Frame>)
      requires Valid()
      modifies this, Windows(), Buffers()
      ensures Valid()
      ensures View() == Step(old(View()), TimerFires).path
      ensures delivered == FramesOf(Step(old(View()), TimerFires).delivered)
    {
      hide Good, AllStored, AllGood, FlushAll, FramesOf;
      StepGood(View(), TimerFires);
      var again;
      delivered, again := FlushWindows();
      armed := again;
      assert View() == Step(old(View()), TimerFires).path;
    }
  }

  function FlushedAt(ws: seq<Option<Window>>, tid: nat, room: nat): (seq<Option<Window>>, seq<Delivery>)
    requires tid < |ws|
  {
    if ws[tid].None? then (ws, [])
    else (ws[tid := Some(Flush(ws[tid].value, room).window)], Tagged(tid, Flush(ws[tid].value, room).released))
  }

  lemma FlushAllStep(ws: seq<Option<Window>>, tid: nat, room: nat)
    requires AllGood(ws) && tid < |ws|
    ensures AllGood(FlushedAt(ws, tid, room).0) && |FlushedAt(ws, tid, room).0| == |ws| && |FlushedAt(ws, tid, room).1| <= room
    ensures FlushAll(ws, tid, room).0 == FlushAll(FlushedAt(ws, tid, room).0, tid + 1, room - |FlushedAt(ws, tid, room).1|).0
    ensures FlushAll(ws, tid, room).1
         == FlushedAt(ws, tid, room).1 + FlushAll(FlushedAt(ws, tid, room).0, tid + 1, room - |FlushedAt(ws, tid, room).1|).1
    ensures forall t :: 0 <= t < |ws| && t != tid ==> FlushedAt(ws, tid, room).0[t] == ws[t]
  {
    hide Good, Flush;
    if ws[tid].None? {
      assert [] + FlushAll(ws, tid + 1, room).1 == FlushAll(ws, tid + 1, room).1;
    } else {
      FlushOne(ws[tid].value, room);
    }
  }

  lemma NothingAfter(ws: seq<Option<Window>>, room: nat)
    ensures FlushAll(ws, |ws|, room) == (ws, [])
  {
  }

  lemma FlushedRest(ds: seq<Delivery>, more: seq<Delivery>, rest: seq<Delivery>)
    ensures ds + (more + rest) == (ds + more) + rest
  {
  }

  lemma FramesOfConcat(p: seq<Delivery>, q: seq<Delivery>)
    ensures FramesOf(p + q) == FramesOf(p) + FramesOf(q)
    ensures |FramesOf(q)| == |q|
  {
  }

  lemma {:induction false} AnyStored(ws: seq<Option<Window>>)
    ensures AllStored(ws) > 0 <==> exists t :: 0 <= t < |ws| && Stored(ws[t]) > 0
  {
    hide Stored;
    if |ws| > 0 {
      AnyStored(ws[1..]);
      assert forall t :: 0 <= t < |ws| - 1 ==> ws[1..][t] == ws[t + 1];
      assert forall t :: 1 <= t < |ws| ==> ws[t] == ws[1..][t - 1];
    }
  }

  lemma NothingToFlush(w: Window, room: nat)
    requires |w.held| == 0
    ensures Flush(w, room) == Outcome(w, [], [])
  {
  }

  lemma TeardownStep(p: Path, tid: nat)
    requires GoodPath(p) && tid < TIDS
    ensures Step(p, Teardown(tid)).path == Path(p.windows[tid := None], p.armed)
    ensures Step(p, Teardown(tid)).freed + AllHeld(p.windows[tid := None]) == AllHeld(p.windows)
  {
    hide AllStored, HeldBag;
    UpdateSums(p.windows, tid, None);
    EmptySlot(None);
    assert AllHeld(p.windows) + multiset{} == AllHeld(p.windows);
    assert Step(p, Teardown(tid)).freed == HeldBag(p.windows[tid]);
  }

  lemma TeardownAllStep(p: Path, ws: seq<Option<Window>>)
    requires GoodPath(p) && |ws| == TIDS && forall t :: 0 <= t < TIDS ==> ws[t] == None
    ensures Step(p, TeardownAll).path == Path(ws, p.armed)
    ensures Step(p, TeardownAll).freed == AllHeld(p.windows)
    ensures AllHeld(ws) == multiset{}
  {
    hide AllHeld;
    NoWindows(ws);
    assert ws == seq(TIDS, _ => None);
  }

  lemma FramesOfNothing()
    ensures FramesOf([]) == []
  {
  }

  lemma DirectFrames(f: Frame)
    ensures FramesOf([Direct(f)]) == [f]
  {
  }

  lemma TaggedList(tid: nat, rs: seq<Released>)
    ensures FramesOf(Tagged(tid, rs)) == Frames(rs)
  {
  }
}
