/** The DMA buffers of the driver: allocated, mapped as bounce buffers, copied back, freed now or later. */
module Dma {
  import opened Bytes

  /** One buffer: its descriptor, its memory, its bus address, and the buffer it stands in for, if any. */
  datatype Entry = Entry(desc: nat, virt: array<bv8>, phys: nat, size: nat, orig: array?<bv8>)

  /** The buffers in use, those whose release is put off, and the descriptors released so far. */
  datatype Pool = Pool(live: seq<Entry>, pending: seq<Entry>, released: seq<nat>)

  datatype Which = ByVirt(virt: array<bv8>) | ByPhys(phys: nat) | ByBounce(phys: nat)

  predicate Is(e: Entry, w: Which) {
    match w
    case ByVirt(virt) => e.virt == virt
    case ByPhys(phys) => e.phys == phys
    case ByBounce(phys) => e.phys == phys && e.orig != null
  }

  /** The first buffer that matches, or the length of the list. */
  function IndexOf(es: seq<Entry>, w: Which): (i: nat)
    ensures i <= |es|
    ensures i < |es| ==> Is(es[i], w)
    ensures forall j :: 0 <= j < i ==> !Is(es[j], w)
  {
    if |es| == 0 || Is(es[0], w) then 0 else 1 + IndexOf(es[1..], w)
  }

  function Cut<T>(s: seq<T>, i: nat): (r: seq<T>)
    requires i < |s|
    ensures |r| == |s| - 1 && forall k :: 0 <= k < |r| ==> r[k] == s[if k < i then k else k + 1]
  {
    s[..i] + s[i + 1..]
  }

  function Descs(es: seq<Entry>): (ds: seq<nat>)
    ensures |ds| == |es|
    ensures forall i :: 0 <= i < |es| ==> ds[i] == es[i].desc
  {
    seq(|es|, i requires 0 <= i < |es| => es[i].desc)
  }

  /** Refused is an allocation that got a descriptor but no list node, and gave the descriptor back. */
  datatype Change =
    | Alloc(entry: Entry)
    | Refused(desc: nat)
    | Free(which: Which, preemptible: bool)
    | Drain
    | Bounce(phys: nat, orig: array<bv8>)

  /** Freeing takes the buffer out of use; its descriptor is released at once only where the thread may block. */
  function Freed(p: Pool, w: Which, preemptible: bool): Pool {
    var i := IndexOf(p.live, w);
    if i == |p.live| then p
    else
      var e := p.live[i];
      if preemptible then p.(live := Cut(p.live, i), released := p.released + [e.desc])
      else p.(live := Cut(p.live, i), pending := [e] + p.pending)
  }

  function Next(p: Pool, c: Change): Pool {
    match c
    case Alloc(e) => p.(live := [e] + p.live)
    case Refused(desc) => p.(released := p.released + [desc])
    case Free(w, preemptible) => Freed(p, w, preemptible)
    case Drain => p.(pending := [], released := p.released + Descs(p.pending))
    case Bounce(phys, orig) =>
      var i := IndexOf(p.live, ByPhys(phys));
      if i == |p.live| then p else p.(live := p.live[i := p.live[i].(orig := orig)])
  }

  /** What the allocator of the kernel promises: descriptors are new, and no buffer in use shares memory or address. */
  ghost predicate FreshEntry(p: Pool, ever: set<nat>, e: Entry) {
    && e.desc !in ever && e.virt.Length >= e.size && e.orig == null
    && forall f :: f in p.live ==> f.virt != e.virt && f.phys != e.phys
  }

  ghost predicate Fresh(p: Pool, ever: set<nat>, c: Change) {
    match c
    case Alloc(e) => FreshEntry(p, ever, e)
    case Refused(desc) => desc !in ever
    case _ => true
  }

  /** How often a descriptor is in the pool, in all three places together. */
  function Places(p: Pool, d: nat): nat {
    multiset(Descs(p.live))[d] + multiset(Descs(p.pending))[d] + multiset(p.released)[d]
  }

  ghost predicate Distinct(es: seq<Entry>) {
    forall i, j :: 0 <= i < j < |es| ==> es[i].virt != es[j].virt && es[i].phys != es[j].phys
  }

  /** Every descriptor ever allocated is in exactly one place, once; buffers in use differ in memory and address. */
  ghost predicate Tracked(p: Pool, ever: set<nat>) {
    && (forall d :: Places(p, d) == if d in ever then 1 else 0)
    && Distinct(p.live)
  }

  function EverAfter(ever: set<nat>, c: Change): set<nat> {
    if c.Alloc? then ever + {c.entry.desc} else if c.Refused? then ever + {c.desc} else ever
  }

  lemma DescsConcat(a: seq<Entry>, b: seq<Entry>)
    ensures Descs(a + b) == Descs(a) + Descs(b)
  {
  }

  lemma DescsCut(es: seq<Entry>, i: nat)
    requires i < |es|
    ensures multiset(Descs(es)) == multiset(Descs(Cut(es, i))) + multiset{es[i].desc}
  {
    assert es == es[..i] + [es[i]] + es[i + 1..];
    DescsConcat(es[..i] + [es[i]], es[i + 1..]);
    DescsConcat(es[..i], [es[i]]);
    DescsConcat(es[..i], es[i + 1..]);
    assert Descs([es[i]]) == [es[i].desc];
  }

  lemma DistinctCut(es: seq<Entry>, i: nat)
    requires i < |es| && Distinct(es)
    ensures Distinct(Cut(es, i))
  {
    var r := Cut(es, i);
    assert forall k :: 0 <= k < |r| ==> r[k] == es[if k < i then k else k + 1];
  }

  lemma AllocTracks(p: Pool, ever: set<nat>, e: Entry)
    requires Tracked(p, ever) && FreshEntry(p, ever, e)
    ensures Tracked(Next(p, Alloc(e)), ever + {e.desc})
  {
    DescsConcat([e], p.live);
    assert Descs([e]) == [e.desc];
    var q := Next(p, Alloc(e));
    assert forall d :: Places(q, d) == Places(p, d) + multiset{e.desc}[d];
    DistinctFront(p, e);
  }

  lemma FreeTracks(p: Pool, ever: set<nat>, w: Which, preemptible: bool)
    requires Tracked(p, ever)
    ensures Tracked(Freed(p, w, preemptible), ever)
  {
    hide Descs, Cut;
    var i := IndexOf(p.live, w);
    if i < |p.live| {
      FreedPlaces(p, w, preemptible);
      DistinctCut(p.live, i);
    }
  }

  lemma BounceTracks(p: Pool, ever: set<nat>, phys: nat, orig: array<bv8>)
    requires Tracked(p, ever)
    ensures Tracked(Next(p, Bounce(phys, orig)), ever)
  {
    var q := Next(p, Bounce(phys, orig));
    assert Descs(q.live) == Descs(p.live);
    assert forall d :: Places(q, d) == Places(p, d);
  }

  /** Every operation keeps the account. */
  lemma NextTracks(p: Pool, ever: set<nat>, c: Change)
    requires Tracked(p, ever) && Fresh(p, ever, c)
    ensures Tracked(Next(p, c), EverAfter(ever, c))
  {
    hide FreshEntry, Distinct, Freed, IndexOf, Places;
    match c {
      case Alloc(e) =>
        AllocTracks(p, ever, e);
      case Free(w, preemptible) =>
        FreeTracks(p, ever, w, preemptible);
      case Bounce(phys, orig) =>
        BounceTracks(p, ever, phys, orig);
      case Refused(desc) =>
        MovedPlaces(p, desc);
      case Drain =>
        DrainedPlaces(p);
    }
  }

  lemma MovedPlaces(p: Pool, desc: nat)
    ensures forall d :: Places(p.(released := p.released + [desc]), d) == Places(p, d) + multiset{desc}[d]
  {
  }

  lemma DrainedPlaces(p: Pool)
    ensures forall d :: Places(Next(p, Drain), d) == Places(p, d)
  {
    assert Descs([]) == [];
  }

  lemma DistinctFront(p: Pool, e: Entry)
    requires Distinct(p.live) && forall f :: f in p.live ==> f.virt != e.virt && f.phys != e.phys
    ensures Distinct([e] + p.live)
  {
  }

  lemma FreedPlaces(p: Pool, w: Which, preemptible: bool)
    requires IndexOf(p.live, w) < |p.live|
    ensures forall d :: Places(Freed(p, w, preemptible), d) == Places(p, d)
  {
    var i := IndexOf(p.live, w);
    DescsCut(p.live, i);
    DescsConcat([p.live[i]], p.pending);
    assert Descs([p.live[i]]) == [p.live[i].desc];
  }

  // Runs.

  ghost predicate Legal(p: Pool, ever: set<nat>, cs: seq<Change>)
    decreases |cs|
  {
    |cs| == 0 || (Fresh(p, ever, cs[0]) && Legal(Next(p, cs[0]), EverAfter(ever, cs[0]), cs[1..]))
  }

  function Run(p: Pool, cs: seq<Change>): Pool
    decreases |cs|
  {
    hide Next;
    if |cs| == 0 then p else Run(Next(p, cs[0]), cs[1..])
  }

  function EverIn(ever: set<nat>, cs: seq<Change>): set<nat>
    decreases |cs|
  {
    if |cs| == 0 then ever else EverIn(EverAfter(ever, cs[0]), cs[1..])
  }

  const EMPTY: Pool := Pool([], [], [])

  lemma {:induction false} RunTracks(p: Pool, ever: set<nat>, cs: seq<Change>)
    requires Tracked(p, ever) && Legal(p, ever, cs)
    ensures Tracked(Run(p, cs), EverIn(ever, cs))
    decreases |cs|
  {
    hide Next, Tracked, EverAfter, Fresh;
    if |cs| > 0 {
      NextTracks(p, ever, cs[0]);
      RunTracks(Next(p, cs[0]), EverAfter(ever, cs[0]), cs[1..]);
    }
  }

  /** Whatever mix of allocations, both kinds of frees with preemption on or off, and drains: a descriptor that
      was allocated is in use, waiting for release, or released, never two of them and never released twice. */
  lemma ExactlyOnePlace(cs: seq<Change>, d: nat)
    requires Legal(EMPTY, {}, cs)
    ensures Places(Run(EMPTY, cs), d) == if d in EverIn({}, cs) then 1 else 0
  {
    hide Run, EverIn, Legal;
    assert Tracked(EMPTY, {});
    RunTracks(EMPTY, {}, cs);
  }

  predicate Disturbs(c: Change, e: Entry) {
    match c
    case Alloc(_) => false
    case Refused(_) => false
    case Drain => false
    case Free(w, _) => Is(e, w)
    case Bounce(phys, _) => phys == e.phys
  }

  lemma WithoutHas(es: seq<Entry>, i: nat, e: Entry)
    requires i < |es| && e in es && e != es[i]
    ensures e in Cut(es, i)
  {
    var k :| 0 <= k < |es| && es[k] == e;
    assert Cut(es, i)[if k < i then k else k - 1] == e;
  }

  lemma UpdatedHas(es: seq<Entry>, i: nat, f: Entry, e: Entry)
    requires i < |es| && e in es && e != es[i]
    ensures e in es[i := f]
  {
    var k :| 0 <= k < |es| && es[k] == e;
    assert es[i := f][k] == e;
  }

  lemma MappedOn(p: Pool, c: Change, e: Entry)
    requires e in p.live && !Disturbs(c, e)
    ensures e in Next(p, c).live
  {
    hide Cut;
    match c {
      case Free(w, preemptible) =>
        var i := IndexOf(p.live, w);
        if i < |p.live| {
          WithoutHas(p.live, i, e);
        }
      case Bounce(phys, orig) =>
        var i := IndexOf(p.live, ByPhys(phys));
        if i < |p.live| {
          UpdatedHas(p.live, i, p.live[i].(orig := orig), e);
        }
      case Alloc(f) =>
      case Refused(_) =>
      case Drain =>
    }
  }

  /** A mapping stays until it is freed or mapped anew, whatever happens to other buffers. */
  lemma {:induction false} MappingSurvives(p: Pool, cs: seq<Change>, e: Entry)
    requires e in p.live && forall c :: c in cs ==> !Disturbs(c, e)
    ensures e in Run(p, cs).live
    decreases |cs|
  {
    hide Next, Disturbs;
    if |cs| > 0 {
      assert cs[0] in cs;
      MappedOn(p, cs[0], e);
      assert forall c :: c in cs[1..] ==> c in cs;
      MappingSurvives(Next(p, cs[0]), cs[1..], e);
    }
  }

  /** Among buffers in use the address finds the right one. */
  lemma Found(p: Pool, ever: set<nat>, e: Entry)
    requires Tracked(p, ever) && e in p.live
    ensures forall w :: Is(e, w) ==> IndexOf(p.live, w) < |p.live| && p.live[IndexOf(p.live, w)] == e
  {
    var k :| 0 <= k < |p.live| && p.live[k] == e;
    forall w | Is(e, w)
      ensures IndexOf(p.live, w) < |p.live| && p.live[IndexOf(p.live, w)] == e
    {
      assert Is(p.live[k], w);
    }
  }

  /** A sync finds the mapping it is for: after any run that leaves the mapping alone, the first bounce
      buffer at its address is that buffer, standing in for the memory it was made for. */
  lemma SyncFindsMapping(p: Pool, ever: set<nat>, cs: seq<Change>, e: Entry)
    requires Tracked(p, ever) && Legal(p, ever, cs)
    requires e in p.live && e.orig != null && forall c :: c in cs ==> !Disturbs(c, e)
    ensures var q := Run(p, cs); var i := IndexOf(q.live, ByBounce(e.phys)); i < |q.live| && q.live[i] == e
  {
    hide Run, Disturbs, Legal;
    MappingSurvives(p, cs, e);
    RunTracks(p, ever, cs);
    Found(Run(p, cs), EverIn(ever, cs), e);
  }

  /** Mapping and unmapping leaves the buffers in use as they were, and gives the descriptor back or puts it off. */
  lemma MapUnmap(p: Pool, ever: set<nat>, e: Entry, orig: array<bv8>, preemptible: bool)
    requires FreshEntry(p, ever, e)
    ensures var q := Next(Next(Next(p, Alloc(e)), Bounce(e.phys, orig)), Free(ByPhys(e.phys), preemptible));
      && q.live == p.live
      && q.released == p.released + (if preemptible then [e.desc] else [])
      && Descs(q.pending) == (if preemptible then [] else [e.desc]) + Descs(p.pending)
  {
    var mapped := [e.(orig := orig)] + p.live;
    assert Next(Next(p, Alloc(e)), Bounce(e.phys, orig)).live == mapped;
    assert Cut(mapped, 0) == p.live;
  }

  // The lists themselves.

  class Node {
    const desc: nat
    const virt: array<bv8>
    const phys: nat
    const size: nat
    var orig: array?<bv8>
    var next: Node?

    constructor (desc: nat, virt: array<bv8>, phys: nat, size: nat, next: Node?)
      ensures View() == Entry(desc, virt, phys, size, null) && this.next == next
    {
      this.desc, this.virt, this.phys, this.size := desc, virt, phys, size;
      this.orig, this.next := null, next;
    }

    ghost function View(): Entry
      reads this
    {
      Entry(desc, virt, phys, size, orig)
    }

    predicate Matches(w: Which)
      reads this
      ensures Matches(w) == Is(View(), w)
    {
      match w
      case ByVirt(v) => virt == v
      case ByPhys(p) => phys == p
      case ByBounce(p) => phys == p && orig != null
    }
  }

  ghost function Nexts(nodes: seq<Node>): (ns: seq<Node?>)
    reads nodes
    ensures |ns| == |nodes| && forall i :: 0 <= i < |nodes| ==> ns[i] == nodes[i].next
  {
    if |nodes| == 0 then [] else [nodes[0].next] + Nexts(nodes[1..])
  }

  ghost predicate Linked(nodes: seq<Node>, nexts: seq<Node?>, head: Node?) {
    && |nexts| == |nodes|
    && head == (if |nodes| == 0 then null else nodes[0])
    && forall i {:trigger nexts[i]} :: 0 <= i < |nodes| ==> nexts[i] == if i + 1 < |nodes| then nodes[i + 1] else null
  }

  ghost predicate Chain(nodes: seq<Node>, head: Node?)
    reads nodes
  {
    hide Nexts;
    Linked(nodes, Nexts(nodes), head)
  }

  ghost function Views(nodes: seq<Node>): (es: seq<Entry>)
    reads nodes
    ensures |es| == |nodes| && forall i :: 0 <= i < |nodes| ==> es[i] == nodes[i].View()
  {
    if |nodes| == 0 then [] else [nodes[0].View()] + Views(nodes[1..])
  }

  lemma ChainFront(n: Node, nodes: seq<Node>)
    requires Chain(nodes, n.next)
    ensures Chain([n] + nodes, n)
  {
    hide Nexts;
    var all := [n] + nodes;
    forall i | 0 <= i < |all|
      ensures Nexts(all)[i] == if i + 1 < |all| then all[i + 1] else null
    {
      if i > 0 {
        assert all[i] == nodes[i - 1] && Nexts(nodes)[i - 1] == if i < |nodes| then nodes[i] else null;
      }
    }
  }

  lemma ViewsFront(n: Node, nodes: seq<Node>)
    ensures Views([n] + nodes) == [n.View()] + Views(nodes)
  {
    var all := [n] + nodes;
    assert all[1..] == nodes && all[0] == n;
  }

  ghost predicate NoRepeats(nodes: seq<Node>) {
    forall i, j :: 0 <= i < j < |nodes| ==> nodes[i] != nodes[j]
  }

  ghost predicate Apart(a: seq<Node>, b: seq<Node>) {
    forall n :: n in a ==> n !in b
  }

  lemma NodesCut(nodes: seq<Node>, i: nat, other: seq<Node>)
    requires i < |nodes| && NoRepeats(nodes) && Apart(nodes, other)
    ensures NoRepeats(Cut(nodes, i)) && Apart(Cut(nodes, i), other)
    ensures nodes[i] !in Cut(nodes, i) && nodes[i] !in other
  {
    hide Cut;
  }

  lemma NextsCut(nodes: seq<Node>, i: nat)
    requires i < |nodes|
    ensures Nexts(Cut(nodes, i)) == Cut(Nexts(nodes), i)
  {
    hide Nexts, Cut;
  }

  lemma ViewsCut(nodes: seq<Node>, i: nat)
    requires i < |nodes|
    ensures Views(Cut(nodes, i)) == Cut(Views(nodes), i)
  {
    hide Views, Cut;
  }

  lemma NoNodes()
    ensures Chain([], null) && Views([]) == []
  {
  }

  lemma ChainHead(nodes: seq<Node>, head: Node?)
    requires Chain(nodes, head)
    ensures head == if |nodes| == 0 then null else nodes[0]
  {
  }

  lemma ChainNext(nodes: seq<Node>, head: Node?, i: nat)
    requires Chain(nodes, head) && i < |nodes|
    ensures nodes[i].next == if i + 1 < |nodes| then nodes[i + 1] else null
  {
    hide Nexts;
    assert Nexts(nodes)[i] == nodes[i].next;
  }

  lemma {:induction false} IndexIs(es: seq<Entry>, w: Which, i: nat)
    requires i <= |es| && (forall j :: 0 <= j < i ==> !Is(es[j], w)) && (i < |es| ==> Is(es[i], w))
    ensures IndexOf(es, w) == i
  {
    hide Is;
    if i > 0 {
      IndexIs(es[1..], w, i - 1);
    }
  }

  /** Taking one node out of a chain: the link before it, or the head, goes to the one behind it. */
  lemma LinkedCut(nodes: seq<Node>, nexts: seq<Node?>, i: nat, head: Node?)
    requires i < |nodes| && Linked(nodes, nexts, head)
    ensures var links := if i == 0 then nexts else nexts[i - 1 := nexts[i]];
      Linked(Cut(nodes, i), Cut(links, i), if i == 0 then nexts[i] else head)
  {
    var links := if i == 0 then nexts else nexts[i - 1 := nexts[i]];
    var rest, after := Cut(nodes, i), Cut(links, i);
    forall k | 0 <= k < |rest|
      ensures after[k] == if k + 1 < |rest| then rest[k + 1] else null
    {
      var m := if k < i then k else k + 1;
      assert after[k] == links[m] && rest[k] == nodes[m];
      assert nexts[m] == if m + 1 < |nodes| then nodes[m + 1] else null;
      assert nexts[i] == if i + 1 < |nodes| then nodes[i + 1] else null;
    }
  }

  class DmaPool {
    var dmaList: Node?
    var dmaPendingFree: Node?
    /** The release calls made so far, in order. */
    var released: seq<nat>
    ghost var live: seq<Node>
    ghost var pending: seq<Node>

    ghost predicate Valid()
      reads this, live, pending
    {
      && Chain(live, dmaList) && Chain(pending, dmaPendingFree)
      && NoRepeats(live) && NoRepeats(pending) && Apart(live, pending)
    }

    ghost function View(): Pool
      reads this, live, pending
    {
      Pool(Views(live), Views(pending), released)
    }

    constructor ()
      ensures Valid() && View() == EMPTY
    {
      dmaList, dmaPendingFree, released, live, pending := null, null, [], [], [];
    }

    /** A new buffer of zeros in front of the list, if descriptor and node can be had. */
    method AllocCoherent(desc: nat, phys: nat, size: nat, described: bool, memory: bool) returns (virt: array?<bv8>)
      requires Valid()
      modifies this
      ensures Valid() && pending == old(pending) && (virt == null ==> live == old(live))
      ensures virt != null ==> |live| > 0 && fresh(live[0]) && live[0].virt == virt && live[1..] == old(live)
      ensures virt == null <==> !described || !memory
      ensures virt == null ==> View() == if described then Next(old(View()), Refused(desc)) else old(View())
      ensures virt != null ==> fresh(virt) && virt.Length == size && (forall i :: 0 <= i < size ==> virt[i] == 0)
                               && View() == Next(old(View()), Alloc(Entry(desc, virt, phys, size, null)))
    {
      hide Chain, Views;
      if !described {
        return null;
      }
      var va := new bv8[size](_ => 0);
      if !memory {
        released := released + [desc];
        return null;
      }
      var entry := new Node(desc, va, phys, size, dmaList);
      ChainFront(entry, live);
      ViewsFront(entry, live);
      dmaList := entry;
      live := [entry] + live;
      virt := va;
    }

    /** Points the link before place i, or the head, at what is behind it. */
    method Relink(prev: Node?, e: Node, ghost i: nat)
      requires i < |live| && live[i] == e && prev == (if i == 0 then null else live[i - 1])
      requires NoRepeats(live) && Apart(live, pending)
      modifies `dmaList, live`next
      ensures dmaList == if i == 0 then old(e.next) else old(dmaList)
      ensures Nexts(live) == if i == 0 then old(Nexts(live)) else old(Nexts(live))[i - 1 := old(e.next)]
      ensures Views(live) == old(Views(live))
      ensures Nexts(pending) == old(Nexts(pending)) && Views(pending) == old(Views(pending))
    {
      hide Views, Nexts;
      assert prev != null ==> prev in live;
      if prev == null {
        dmaList := e.next;
      } else {
        prev.next := e.next;
      }
    }

    /** Takes the node at place i out of the list; prev is the node before it. */
    method Unlink(prev: Node?, e: Node, ghost i: nat)
      requires Valid() && i < |live| && live[i] == e && prev == if i == 0 then null else live[i - 1]
      modifies `dmaList, `live, live`next
      ensures Valid() && live == Cut(old(live), i)
      ensures e !in live && e !in pending
      ensures View() == old(View()).(live := Cut(old(View()).live, i)) && e.View() == old(View()).live[i]
    {
      hide Views, Nexts, Linked, Cut, NoRepeats, Apart;
      NodesCut(live, i, pending);
      LinkedCut(live, Nexts(live), i, dmaList);
      Relink(prev, e, i);
      NextsCut(live, i);
      ViewsCut(live, i);
      live := Cut(live, i);
    }

    /** Gives the descriptor of an unlinked node back, or puts that off where the thread may not block. */
    method Dispose(e: Node, preemptible: bool)
      requires Valid() && e !in live && e !in pending
      modifies `released, `dmaPendingFree, `pending, e`next
      ensures Valid() && Views(live) == old(Views(live)) && e.View() == old(e.View())
      ensures preemptible ==> View() == old(View()).(released := old(released) + [e.desc])
      ensures !preemptible ==> View() == old(View()).(pending := [e.View()] + old(View()).pending)
    {
      hide Views, Linked, Nexts;
      if preemptible {
        released := released + [e.desc];
      } else {
        ghost var rest := pending;
        e.next := dmaPendingFree;
        dmaPendingFree := e;
        ChainFront(e, rest);
        ViewsFront(e, rest);
        pending := [e] + pending;
      }
    }

    /** Walks the list to the first buffer that matches, remembering the node before it. */
    method Search(w: Which) returns (prev: Node?, e: Node?, ghost i: nat)
      requires Valid()
      ensures i == IndexOf(View().live, w) && e == (if i < |live| then live[i] else null)
      ensures prev == if i == 0 then null else live[i - 1]
    {
      hide Views, Linked, Nexts;
      prev, e, i := null, dmaList, 0;
      ChainHead(live, dmaList);
      while e != null
        invariant i <= |live| && e == (if i < |live| then live[i] else null) && prev == (if i == 0 then null else live[i - 1])
        invariant forall j :: 0 <= j < i ==> !Is(Views(live)[j], w)
        decreases |live| - i
      {
        ChainNext(live, dmaList, i);
        if e.Matches(w) {
          break;
        }
        prev, e, i := e, e.next, i + 1;
      }
      IndexIs(Views(live), w, i);
    }

    method FreeFirst(w: Which, preemptible: bool)
      requires Valid()
      modifies this, live
      ensures Valid() && View() == Freed(old(View()), w, preemptible)
    {
      hide Views, Chain, Cut, IndexOf;
      var prev, e, i := Search(w);
      if e != null {
        Unlink(prev, e, i);
        Dispose(e, preemptible);
      }
    }

    method FreeCoherent(virt: array<bv8>, preemptible: bool)
      requires Valid()
      modifies this, live
      ensures Valid() && View() == Next(old(View()), Free(ByVirt(virt), preemptible))
    {
      FreeFirst(ByVirt(virt), preemptible);
    }

    method FreeCoherentByPhys(phys: nat, preemptible: bool)
      requires Valid()
      modifies this, live
      ensures Valid() && View() == Next(old(View()), Free(ByPhys(phys), preemptible))
    {
      FreeFirst(ByPhys(phys), preemptible);
    }

    /** Releases everything whose release was put off. */
    method DrainPendingFree()
      requires Valid()
      modifies `dmaPendingFree, `pending, `released
      ensures Valid() && View() == Next(old(View()), Drain)
    {
      hide Views, Linked, Nexts;
      var e := dmaPendingFree;
      ghost var list := pending;
      ChainHead(list, e);
      dmaPendingFree := null;
      pending := [];
      NoNodes();
      ghost var i := 0;
      ghost var descs := Descs(Views(list));
      while e != null
        invariant i <= |list| && e == if i < |list| then list[i] else null
        invariant released == old(released) + descs[..i]
        decreases |list| - i
        modifies `released
      {
        ChainNext(list, old(dmaPendingFree), i);
        var next := e.next;
        assert descs[..i + 1] == descs[..i] + [e.desc];
        released := released + [e.desc];
        e := next;
        i := i + 1;
      }
      assert descs[..i] == descs;
    }

    /** Records which memory a bounce buffer stands in for. */
    method SetBounceOrigVa(phys: nat, orig: array<bv8>)
      requires Valid()
      modifies live`orig
      ensures Valid() && View() == Next(old(View()), Bounce(phys, orig))
    {
      hide Views, Linked, Nexts, IndexOf;
      var _, e, i := Search(ByPhys(phys));
      if e != null {
        SetOrig(e, i, orig);
      }
    }

    method SetOrig(e: Node, ghost i: nat, orig: array<bv8>)
      requires Valid() && i < |live| && live[i] == e
      modifies e`orig
      ensures Nexts(live) == old(Nexts(live)) && Nexts(pending) == old(Nexts(pending))
      ensures Views(live) == old(Views(live))[i := old(e.View()).(orig := orig)] && Views(pending) == old(Views(pending))
    {
      hide Views, Chain, Nexts;
      assert e in live;
      e.orig := orig;
    }

    /** Copies what the device wrote into the memory the buffer stands in for: no more than either size. */
    method SyncBounceForCpu(phys: nat, size: nat, ghost target: array<bv8>)
      requires Valid()
      requires forall e :: e in View().live && e.phys == phys && e.orig != null ==>
        e.orig == target && Least(size, e.size) <= target.Length && e.size <= e.virt.Length && e.virt != target
      modifies target
      ensures var i := IndexOf(View().live, ByBounce(phys));
        if i == |View().live| then target[..] == old(target[..])
        else
          var e := View().live[i]; var n := Least(size, e.size);
          n <= |old(target[..])| && n <= e.virt.Length && target[..] == e.virt[..n] + old(target[n..])
    {
      hide Views, Chain, IndexOf;
      var _, e, i := Search(ByBounce(phys));
      if e != null {
        assert Views(live)[i] in Views(live);
        CopyFront(e.orig, e.virt, if size <= e.size then size else e.size);
      }
    }

    /** Maps memory for the device: a bounce buffer, filled at once when the device is to read it. */
    method DmaMap(ptr: array<bv8>, size: nat, toDevice: bool, desc: nat, phys: nat, described: bool, memory: bool) returns (handle: nat)
      requires Valid() && size <= ptr.Length
      modifies this, live`orig
      ensures Valid()
      ensures !described || !memory ==> handle == 0 && View() == if described then Next(old(View()), Refused(desc)) else old(View())
      ensures described && memory ==>
        && handle == phys && |live| > 0 && fresh(live[0].virt) && live[0].virt.Length == size
        && View() == Next(Next(old(View()), Alloc(Entry(desc, live[0].virt, phys, size, null))), Bounce(phys, ptr))
        && live[0].virt[..] == if toDevice then ptr[..size] else Zeros(size)
    {
      hide Views, Chain, IndexOf, NoRepeats, Apart, Next;
      var bounce := AllocCoherent(desc, phys, size, described, memory);
      if bounce == null {
        return 0;
      }
      SetBounceOrigVa(phys, ptr);
      FillBounce(bounce, ptr, size, toDevice);
      handle := phys;
    }

    method DmaUnmap(handle: nat, preemptible: bool)
      requires Valid()
      modifies this, live
      ensures Valid() && View() == Next(old(View()), Free(ByPhys(handle), preemptible))
    {
      FreeCoherentByPhys(handle, preemptible);
    }
  }

  function Least(m: nat, n: nat): nat {
    if m <= n then m else n
  }

  method FillBounce(bounce: array<bv8>, ptr: array<bv8>, size: nat, toDevice: bool)
    requires bounce != ptr && bounce.Length == size <= ptr.Length && forall i :: 0 <= i < size ==> bounce[i] == 0
    modifies bounce
    ensures bounce[..] == if toDevice then ptr[..size] else Zeros(size)
  {
    if toDevice {
      CopyFront(bounce, ptr, size);
    }
  }

  method CopyFront(to: array<bv8>, from: array<bv8>, n: nat)
    requires to != from && n <= to.Length && n <= from.Length
    modifies to
    ensures to[..] == from[..n] + old(to[n..])
  {
    for k := 0 to n
      invariant to[..k] == from[..k] && to[k..] == old(to[k..])
    {
      to[k] := from[k];
    }
  }
}
