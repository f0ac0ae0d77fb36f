/** The receive reordering buffer on absolute sequence numbers, section 10.24.7.6 of IEEE Std 802.11-2016. */
module ReorderSpec {
  const MODULUS := 4096
  const SLOTS := 64
  const TIDS := 8

  type Sn = n: nat | n < MODULUS

  /** A received frame: its identity and the sender's sequence number. The header carries the
      number modulo 4096, and nothing but that reaches the receiver's decisions. */
  datatype Frame = Frame(id: nat, number: nat) {
    function Sn(): Sn {
      number % MODULUS
    }
  }

  /** A frame released from a window, with the absolute number it was given. */
  datatype Released = Released(num: nat, frame: Frame)

  /** The next expected number, the window size and the frames held behind a gap. */
  datatype Window = Window(head: nat, size: nat, held: map<nat, Frame>)

  /** Every held frame lies in the window under a number its 12-bit sequence number agrees with. */
  ghost predicate Good(w: Window) {
    && 1 <= w.size <= SLOTS
    && |w.held| < SLOTS
    && forall k :: k in w.held ==> w.head <= k < w.head + w.size && k % MODULUS == w.held[k].Sn()
  }

  /** How far ahead of the head a sequence number is, modulo 4096. */
  function Ahead(head: nat, sn: Sn): nat {
    (sn - head % MODULUS) % MODULUS
  }

  predicate Stale(w: Window, sn: Sn) {
    Ahead(w.head, sn) >= 2048
  }

  /** The absolute number given to an arriving frame. */
  function Number(w: Window, sn: Sn): nat {
    w.head + Ahead(w.head, sn)
  }

  /** The held frames with numbers from a up to b, in order. */
  function InOrder(held: map<nat, Frame>, a: nat, b: nat): seq<Released>
    decreases b - a
  {
    if a >= b then []
    else (if a in held then [Released(a, held[a])] else []) + InOrder(held, a + 1, b)
  }

  /** The first number from a on, at most b, that is not held. */
  function RunEnd(held: map<nat, Frame>, a: nat, b: nat): (e: nat)
    requires a <= b
    ensures a <= e <= b
    decreases b - a
  {
    if a < b && a in held then RunEnd(held, a + 1, b) else a
  }

  function From(held: map<nat, Frame>, a: nat): (rest: map<nat, Frame>)
    ensures forall k :: k in rest <==> k in held && k >= a
    ensures forall k :: k in rest ==> rest[k] == held[k]
  {
    map k | k in held && k >= a :: held[k]
  }

  /** What an operation on a window yields. */
  datatype Outcome = Outcome(window: Window, released: seq<Released>, freed: seq<Frame>)

  /** Everything below e is released in order and the head moves to e. */
  function Release(w: Window, held: map<nat, Frame>, e: nat, freed: seq<Frame>): Outcome {
    Outcome(Window(e, w.size, From(held, e)), InOrder(held, w.head, e), freed)
  }

  /** The head an accepted number forces: beyond the window it slides up just far enough. */
  function Floor(w: Window, n: nat): nat {
    if n >= w.head + w.size && w.size >= 1 then n + 1 - w.size else w.head
  }

  /** An arriving frame. */
  function Input(w: Window, f: Frame): Outcome
    requires w.size >= 1
  {
    if Stale(w, f.Sn()) then Outcome(w, [], [f])
    else
      var n := Number(w, f.Sn());
      var held := Insert(w.held, n, f);
      var e := RunEnd(held, Floor(w, n), Floor(w, n) + w.size);
      Release(w, held, e, if n in w.held then [f] else [])
  }

  function Insert(held: map<nat, Frame>, n: nat, f: Frame): map<nat, Frame> {
    if n in held then held else held[n := f]
  }

  /** The lowest held number. */
  function First(held: map<nat, Frame>, a: nat, b: nat): (e: nat)
    requires a <= b
    ensures a <= e <= b
    decreases b - a
  {
    if a < b && a !in held then First(held, a + 1, b) else a
  }

  /** The hole timer on one window: skip the gap, then release the run behind it, at most room frames. */
  function Flush(w: Window, room: nat): Outcome {
    if |w.held| == 0 then Outcome(w, [], [])
    else
      var first := First(w.held, w.head, w.head + w.size);
      var e := RunEnd(w.held, first, if room < w.head + w.size - first then first + room else w.head + w.size);
      Release(w, w.held, e, [])
  }

  // The unwrapped number is the sender's.

  lemma NumberAgrees(w: Window, sn: Sn)
    ensures Number(w, sn) % MODULUS == sn
    ensures w.head <= Number(w, sn) < w.head + MODULUS
  {
    AheadCongruent(w.head, sn);
  }

  lemma AheadCongruent(head: nat, sn: Sn)
    ensures (head + Ahead(head, sn)) % MODULUS == sn
    ensures Ahead(head, sn) < MODULUS
  {
    var h := head % MODULUS;
    assert Ahead(head, sn) == if sn >= h then sn - h else sn - h + MODULUS;
    assert head == head / MODULUS * MODULUS + h;
  }

  /** When the sender's number is within half the number space of the head, the frame gets exactly
      that number if it is new, and is dropped as stale if it is older than the head. */
  lemma NumberIsTrue(w: Window, f: Frame)
    requires Near(w, f)
    ensures Stale(w, f.Sn()) <==> f.number < w.head
    ensures f.number >= w.head ==> Number(w, f.Sn()) == f.number
  {
    NumberAgrees(w, f.Sn());
    Congruent(f.number, Number(w, f.Sn()));
  }

  predicate Near(w: Window, f: Frame) {
    w.head <= f.number + 2048 && f.number < w.head + 2048
  }

  lemma Congruent(m: nat, n: nat)
    requires m % MODULUS == n % MODULUS
    ensures m == n || m + MODULUS <= n || n + MODULUS <= m
  {
  }

  // The list of held frames.

  function Frames(rs: seq<Released>): seq<Frame> {
    seq(|rs|, i requires 0 <= i < |rs| => rs[i].frame)
  }

  function Bag(rs: seq<Released>): multiset<Frame> {
    multiset(Frames(rs))
  }

  /** Every held frame, in order. */
  function Held(w: Window): seq<Released> {
    InOrder(w.held, w.head, w.head + w.size)
  }

  ghost predicate Increasing(rs: seq<Released>, a: nat, b: nat) {
    && (forall i :: 0 <= i < |rs| ==> a <= rs[i].num < b)
    && (forall i, j :: 0 <= i < j < |rs| ==> rs[i].num < rs[j].num)
  }

  ghost predicate Within(held: map<nat, Frame>, a: nat, b: nat) {
    forall k :: k in held ==> a <= k < b
  }

  lemma {:induction false} InOrderIncreasing(held: map<nat, Frame>, a: nat, b: nat)
    ensures Increasing(InOrder(held, a, b), a, b)
    ensures forall r :: r in InOrder(held, a, b) ==> r.num in held && held[r.num] == r.frame
    decreases b - a
  {
    if a < b {
      InOrderIncreasing(held, a + 1, b);
    }
  }

  lemma {:induction false} InOrderSplit(held: map<nat, Frame>, a: nat, b: nat, c: nat)
    requires a <= b <= c
    ensures InOrder(held, a, c) == InOrder(held, a, b) + InOrder(held, b, c)
    decreases b - a
  {
    if a < b {
      InOrderSplit(held, a + 1, b, c);
    }
  }

  lemma {:induction false} InOrderSame(held: map<nat, Frame>, other: map<nat, Frame>, a: nat, b: nat)
    requires forall k :: a <= k < b ==> (k in held <==> k in other) && (k in held ==> held[k] == other[k])
    ensures InOrder(held, a, b) == InOrder(other, a, b)
    decreases b - a
  {
    if a < b {
      InOrderSame(held, other, a + 1, b);
    }
  }

  lemma {:induction false} InOrderEmpty(held: map<nat, Frame>, a: nat, b: nat)
    requires forall k :: a <= k < b ==> k !in held
    ensures InOrder(held, a, b) == []
    decreases b - a
  {
    if a < b {
      InOrderEmpty(held, a + 1, b);
    }
  }

  lemma {:induction false} InOrderCount(held: map<nat, Frame>, a: nat, b: nat)
    requires Within(held, a, b)
    ensures |InOrder(held, a, b)| == |held|
    decreases b - a
  {
    if a >= b {
      assert held == map[];
    } else {
      var rest := From(held, a + 1);
      InOrderCount(rest, a + 1, b);
      InOrderSame(held, rest, a + 1, b);
      assert rest.Keys == held.Keys - {a};
      assert |held.Keys| == |held| && |rest.Keys| == |rest|;
    }
  }

  lemma FramesConcat(p: seq<Released>, q: seq<Released>)
    ensures Frames(p + q) == Frames(p) + Frames(q)
    ensures Bag(p + q) == Bag(p) + Bag(q)
  {
    assert Frames(p + q) == Frames(p) + Frames(q);
  }

  lemma InOrderOne(held: map<nat, Frame>, n: nat)
    ensures InOrder(held, n, n + 1) == if n in held then [Released(n, held[n])] else []
  {
    assert InOrder(held, n + 1, n + 1) == [];
  }

  lemma BagOne(r: Released)
    ensures Bag([r]) == multiset{r.frame}
  {
    assert Frames([r]) == [r.frame];
  }

  lemma InOrderInsert(held: map<nat, Frame>, n: nat, f: Frame, a: nat, b: nat)
    requires a <= n < b && n !in held
    ensures Bag(InOrder(held[n := f], a, b)) == Bag(InOrder(held, a, b)) + multiset{f}
  {
    hide InOrder, Bag, Frames;
    var more := held[n := f];
    var p, q := InOrder(held, a, n), InOrder(held, n + 1, b);
    InOrderSame(more, held, a, n);
    InOrderSame(more, held, n + 1, b);
    InOrderOne(more, n);
    InOrderOne(held, n);
    InOrderSplit(more, a, n, b);
    InOrderSplit(more, n, n + 1, b);
    InOrderSplit(held, a, n, b);
    InOrderSplit(held, n, n + 1, b);
    assert InOrder(held, a, b) == p + q;
    assert InOrder(more, a, b) == p + ([Released(n, f)] + q);
    FramesConcat(p, q);
    FramesConcat(p, [Released(n, f)] + q);
    FramesConcat([Released(n, f)], q);
    BagOne(Released(n, f));
  }

  lemma {:induction false} RunIsHeld(held: map<nat, Frame>, a: nat, b: nat)
    requires a <= b
    ensures forall k :: a <= k < RunEnd(held, a, b) ==> k in held
    ensures RunEnd(held, a, b) == b || RunEnd(held, a, b) !in held
    decreases b - a
  {
    if a < b && a in held {
      RunIsHeld(held, a + 1, b);
    }
  }

  lemma RunStarts(held: map<nat, Frame>, a: nat, b: nat)
    requires a < b && a in held
    ensures RunEnd(held, a, b) > a
  {
  }

  lemma {:induction false} FirstIsHeld(held: map<nat, Frame>, a: nat, b: nat)
    requires a <= b
    ensures forall k :: a <= k < First(held, a, b) ==> k !in held
    ensures First(held, a, b) == b || First(held, a, b) in held
    decreases b - a
  {
    if a < b && a !in held {
      FirstIsHeld(held, a + 1, b);
    }
  }

  /** Releasing up to e gives up exactly the held frames below e. */
  lemma ReleaseKeeps(w: Window, held: map<nat, Frame>, e: nat, freed: seq<Frame>)
    requires 1 <= w.size && w.head <= e && Within(held, w.head, e + w.size)
    ensures Increasing(Release(w, held, e, freed).released, w.head, e)
    ensures Bag(Release(w, held, e, freed).released) + Bag(Held(Release(w, held, e, freed).window)) == Bag(InOrder(held, w.head, e + w.size))
    ensures |Release(w, held, e, freed).released| + |From(held, e)| == |held|
  {
    hide InOrder, Bag, Increasing, From;
    InOrderIncreasing(held, w.head, e);
    SplitAtEnd(held, w.head, e, e + w.size);
    FramesConcat(InOrder(held, w.head, e), InOrder(From(held, e), e, e + w.size));
    InOrderCount(held, w.head, e + w.size);
    InOrderCount(From(held, e), e, e + w.size);
  }

  lemma SplitAtEnd(held: map<nat, Frame>, a: nat, e: nat, b: nat)
    requires a <= e <= b
    ensures InOrder(held, a, b) == InOrder(held, a, e) + InOrder(From(held, e), e, b)
  {
    hide InOrder, From;
    InOrderSplit(held, a, e, b);
    InOrderSame(held, From(held, e), e, b);
  }

  lemma WiderRange(held: map<nat, Frame>, a: nat, b: nat, c: nat)
    requires a <= b <= c && Within(held, a, b)
    ensures InOrder(held, a, c) == InOrder(held, a, b)
  {
    InOrderSplit(held, a, b, c);
    InOrderEmpty(held, b, c);
  }

  /** An accepted or refused frame keeps the window good, frames are neither lost nor doubled, and
      after every frame that is not stale the head of the window is a gap. */
  lemma InputKeeps(w: Window, f: Frame)
    requires Good(w)
    ensures Good(Input(w, f).window) && Input(w, f).window.head >= w.head && Input(w, f).window.size == w.size
    ensures Increasing(Input(w, f).released, w.head, Input(w, f).window.head)
    ensures Bag(Held(w)) + multiset{f} == Bag(Input(w, f).released) + multiset(Input(w, f).freed) + Bag(Held(Input(w, f).window))
    ensures !Stale(w, f.Sn()) ==> Input(w, f).window.head !in Input(w, f).window.held
  {
    hide InOrder, Bag, Increasing, RunEnd, From, Stale, Number, Floor, Insert, Good, Within;
    SizeOf(w);
    if Stale(w, f.Sn()) {
      NothingReleased(w.head);
    } else {
      var n := Number(w, f.Sn());
      var held, floor := Insert(w.held, n, f), Floor(w, n);
      var e := RunEnd(held, floor, floor + w.size);
      InputWindow(w, f, n, e);
      ReleaseKeeps(w, held, e, if n in w.held then [f] else []);
      InsertBag(w, f, n, e);
    }
  }

  /** The window an accepted frame numbered n leaves behind. */
  lemma InputWindow(w: Window, f: Frame, n: nat, e: nat)
    requires Good(w) && n == Number(w, f.Sn())
    requires e == RunEnd(Insert(w.held, n, f), Floor(w, n), Floor(w, n) + w.size)
    ensures w.head <= Floor(w, n) <= e && w.head <= n < e + w.size
    ensures Within(Insert(w.held, n, f), w.head, e + w.size)
    ensures e !in From(Insert(w.held, n, f), e)
    ensures Good(Window(e, w.size, From(Insert(w.held, n, f), e)))
  {
    hide From, RunEnd, Number;
    NumberAgrees(w, f.Sn());
    var held, floor := Insert(w.held, n, f), Floor(w, n);
    RunIsHeld(held, floor, floor + w.size);
    HoldsLess(Window(e, w.size, From(held, e)));
  }

  lemma InsertBag(w: Window, f: Frame, n: nat, e: nat)
    requires Good(w) && w.head <= n < e + w.size && w.head <= e
    ensures Bag(InOrder(Insert(w.held, n, f), w.head, e + w.size)) + multiset(if n in w.held then [f] else [])
         == Bag(Held(w)) + multiset{f}
  {
    hide InOrder, Bag;
    WiderRange(w.held, w.head, w.head + w.size, e + w.size);
    if n !in w.held {
      InOrderInsert(w.held, n, f, w.head, e + w.size);
    }
  }

  lemma NothingReleased(a: nat)
    ensures Increasing([], a, a) && Bag([]) == multiset{}
  {
  }

  /** A window whose head is a gap holds fewer frames than its size. */
  lemma HoldsLess(w: Window)
    requires 1 <= w.size && w.head !in w.held && Within(w.held, w.head, w.head + w.size)
    ensures |w.held| < w.size
  {
    InOrderCount(w.held, w.head + 1, w.head + w.size);
    InOrderAtMost(w.held, w.head + 1, w.head + w.size);
  }

  lemma {:induction false} InOrderAtMost(held: map<nat, Frame>, a: nat, b: nat)
    requires a <= b
    ensures |InOrder(held, a, b)| <= b - a
    decreases b - a
  {
    if a < b {
      InOrderAtMost(held, a + 1, b);
    }
  }

  lemma FirstFound(w: Window)
    requires Good(w) && |w.held| > 0
    ensures var first := First(w.held, w.head, w.head + w.size);
      && first in w.held && forall k :: k in w.held ==> first <= k
  {
    hide First;
    FirstIsHeld(w.held, w.head, w.head + w.size);
    var k :| k in w.held;
  }

  /** The hole timer keeps the window good, gives frames up in order, and gives up at least one when it may. */
  lemma FlushKeeps(w: Window, room: nat)
    requires Good(w)
    ensures Good(Flush(w, room).window) && Flush(w, room).window.head >= w.head && Flush(w, room).window.size == w.size
    ensures Flush(w, room).freed == [] && Increasing(Flush(w, room).released, w.head, Flush(w, room).window.head)
    ensures Bag(Held(w)) == Bag(Flush(w, room).released) + Bag(Held(Flush(w, room).window))
    ensures |Flush(w, room).released| + |Flush(w, room).window.held| == |w.held| && |Flush(w, room).released| <= room
    ensures |w.held| > 0 && room > 0 ==> |Flush(w, room).released| > 0
  {
    hide InOrder, Bag, Increasing, RunEnd, First, From, Good, Within;
    SizeOf(w);
    if |w.held| == 0 {
      NothingReleased(w.head);
    } else {
      var bound := w.head + w.size;
      var first := First(w.held, w.head, bound);
      FirstFound(w);
      var limit := if room < bound - first then first + room else bound;
      var e := RunEnd(w.held, first, limit);
      SuffixGood(w, e);
      ReleaseKeeps(w, w.held, e, []);
      WiderRange(w.held, w.head, bound, e + w.size);
      FlushCount(w, first, limit, e);
    }
  }

  lemma SizeOf(w: Window)
    requires Good(w)
    ensures 1 <= w.size <= SLOTS && Within(w.held, w.head, w.head + w.size)
  {
  }

  lemma SuffixGood(w: Window, e: nat)
    requires Good(w) && w.head <= e
    ensures Within(w.held, w.head, e + w.size) && Good(Window(e, w.size, From(w.held, e)))
  {
    hide From, InOrder, Bag;
    assert Within(w.held, w.head, e + w.size);
    ReleaseKeeps(w, w.held, e, []);
  }

  lemma FlushCount(w: Window, first: nat, limit: nat, e: nat)
    requires Good(w) && first in w.held && (forall k :: k in w.held ==> first <= k)
    requires first <= limit && e == RunEnd(w.held, first, limit)
    ensures |InOrder(w.held, w.head, e)| <= e - first
    ensures limit > first ==> |InOrder(w.held, w.head, e)| > 0
  {
    hide InOrder, From;
    InOrderSplit(w.held, w.head, first, e);
    InOrderEmpty(w.held, w.head, first);
    InOrderAtMost(w.held, first, e);
    if limit > first {
      RunStarts(w.held, first, limit);
      InOrderSplit(w.held, first, first + 1, e);
      InOrderOne(w.held, first);
    }
  }
}
