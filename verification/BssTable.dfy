/** The table of networks: filled by scans, thinned by age, searched when connecting. */
module BssTable {
  import opened Bytes
  import opened Options
  import opened BssList
  import opened Beacon
  import opened StationSpec
  import KeyDerivation

  const GENERATIONS: nat := 0x1_0000_0000

  /** Entering a network: in place of the one with its address, or in front. */
  function Entered(list: seq<Network>, n: Network): seq<Network> {
    var i := IndexOf(list, n.bssid);
    if i < |list| then list[i := n] else [n] + list
  }

  /** The first place of an address, or the length of the list. */
  function IndexOf(list: seq<Network>, bssid: Address): (i: nat)
    ensures i <= |list|
    ensures i < |list| ==> list[i].bssid == bssid
    ensures forall j :: 0 <= j < i ==> list[j].bssid != bssid
  {
    if |list| == 0 || list[0].bssid == bssid then 0 else 1 + IndexOf(list[1..], bssid)
  }

  /** The scan counter skips zero: when it wraps, it and all ages start again at one. */
  function NextGeneration(g: Word): Word {
    if g + 1 == GENERATIONS then 1 else g + 1
  }

  function Renewed(list: seq<Network>): (r: seq<Network>)
    ensures |r| == |list|
    ensures forall i :: 0 <= i < |list| ==> r[i] == list[i].(lastSeen := 1)
  {
    seq(|list|, i requires 0 <= i < |list| => list[i].(lastSeen := 1))
  }

  /** Age in the unsigned arithmetic of the kernel. */
  function Age(generation: Word, lastSeen: Word): Word {
    if lastSeen <= generation then generation - lastSeen else generation - lastSeen + GENERATIONS
  }

  /** The access point that must not be forgotten: the one of the connection or handshake, also during a scan. */
  function Target(state: State, scanReturn: State, bssid: Address): Option<Address> {
    var effective := if state == Scanning then scanReturn else state;
    if effective == Connected || effective == Handshaking then Some(bssid) else None
  }

  predicate Stays(n: Network, generation: Word, target: Option<Address>) {
    target == Some(n.bssid) || Age(generation, n.lastSeen) <= 3
  }

  function Thinned(list: seq<Network>, generation: Word, target: Option<Address>): seq<Network> {
    if |list| == 0 then []
    else (if Stays(list[0], generation, target) then [list[0]] else []) + Thinned(list[1..], generation, target)
  }

  ghost predicate Unique(list: seq<Network>) {
    forall i, j :: 0 <= i < j < |list| ==> list[i].bssid != list[j].bssid
  }

  /** One entry per address; nothing seen later than the last scan. */
  ghost predicate Sound(list: seq<Network>, generation: Word) {
    && Unique(list)
    && forall i :: 0 <= i < |list| ==> list[i].lastSeen <= generation && Beacon.Sound(list[i].facts)
  }

  /** Entering a network loses no other. */
  lemma EnteredSound(list: seq<Network>, n: Network, generation: Word)
    requires Sound(list, generation) && n.lastSeen == generation && Beacon.Sound(n.facts)
    ensures Sound(Entered(list, n), generation)
    ensures |Entered(list, n)| == |list| + if exists i :: 0 <= i < |list| && list[i].bssid == n.bssid then 0 else 1
    ensures n in Entered(list, n)
    ensures forall m :: m in list && m.bssid != n.bssid ==> m in Entered(list, n)
  {
    var i := IndexOf(list, n.bssid);
    var r := Entered(list, n);
    if i < |list| {
      assert r[i] == n;
      forall m | m in list && m.bssid != n.bssid
        ensures m in r
      {
        var k :| 0 <= k < |list| && list[k] == m;
        assert r[k] == m;
      }
    } else {
      assert r[0] == n;
      assert forall k :: 0 <= k < |list| ==> r[k + 1] == list[k];
    }
  }

  /** A network seen for the first time comes first; one seen before keeps its place, and no other moves. */
  lemma EnteredPlace(list: seq<Network>, n: Network)
    requires Unique(list)
    ensures var r := Entered(list, n);
      if forall m :: m in list ==> m.bssid != n.bssid then r[0] == n && r[1..] == list
      else |r| == |list| && forall i :: 0 <= i < |list| ==> r[i] == if list[i].bssid == n.bssid then n else list[i]
  {
    var i := IndexOf(list, n.bssid);
    assert i < |list| ==> list[i] in list;
  }

  lemma {:induction false} ThinnedMembers(list: seq<Network>, generation: Word, target: Option<Address>)
    ensures forall n :: n in Thinned(list, generation, target) <==> n in list && Stays(n, generation, target)
  {
    hide Stays;
    if |list| > 0 {
      ThinnedMembers(list[1..], generation, target);
      assert list == [list[0]] + list[1..];
    }
  }

  lemma {:induction false} ThinnedUnique(list: seq<Network>, generation: Word, target: Option<Address>)
    requires Unique(list)
    ensures Unique(Thinned(list, generation, target))
  {
    hide Stays;
    if |list| > 0 {
      var rest := list[1..];
      ThinnedUnique(rest, generation, target);
      ThinnedMembers(rest, generation, target);
      var t := Thinned(rest, generation, target);
      forall i | 0 <= i < |t|
        ensures t[i].bssid != list[0].bssid
      {
        assert t[i] in rest;
      }
    }
  }

  /** Thinning keeps exactly the target and the networks seen in the last three scans. */
  lemma ThinnedIs(list: seq<Network>, generation: Word, target: Option<Address>)
    requires Sound(list, generation)
    ensures Sound(Thinned(list, generation, target), generation)
    ensures forall n :: n in Thinned(list, generation, target) <==>
      n in list && (target == Some(n.bssid) || generation - n.lastSeen <= 3)
  {
    hide Beacon.Sound, Thinned, Unique;
    ThinnedMembers(list, generation, target);
    ThinnedUnique(list, generation, target);
    var t := Thinned(list, generation, target);
    forall i | 0 <= i < |t|
      ensures t[i].lastSeen <= generation && Beacon.Sound(t[i].facts)
    {
      assert t[i] in list;
    }
  }

  /** The end of a scan never forgets the network of a connection or handshake, also when the scan started from it, however
      long it has not been seen; of others it forgets exactly those not seen for more than three scans. */
  lemma TargetKept(t: Table, state: State, scanReturn: State, bssid: Address, n: Network)
    requires Consistent(t) && n in t.list
    ensures var joined := state in {Connected, Handshaking} || (state == Scanning && scanReturn in {Connected, Handshaking});
      n in Next(t, Done(false, Target(state, scanReturn, bssid))).list <==> (joined && n.bssid == bssid) || t.generation - n.lastSeen <= 3
  {
    hide Beacon.Sound, Thinned, Unique;
    ThinnedIs(t.list, t.generation, Target(state, scanReturn, bssid));
  }

  ghost predicate Subsequence(a: seq<Network>, b: seq<Network>) {
    |a| == 0 || (|b| > 0 && ((a[0] == b[0] && Subsequence(a[1..], b[1..])) || Subsequence(a, b[1..])))
  }

  /** Thinning keeps the order. */
  lemma {:induction false} ThinnedInOrder(list: seq<Network>, generation: Word, target: Option<Address>)
    ensures Subsequence(Thinned(list, generation, target), list)
  {
    if |list| > 0 {
      ThinnedInOrder(list[1..], generation, target);
      var t := Thinned(list[1..], generation, target);
      assert ([list[0]] + t)[1..] == t;
      assert [] + t == t;
    }
  }

  // Runs.

  datatype Change =
    | Beacon(frame: bytes, rssi: Signal, freq: nat, memory: bool)
    | Scan
    | Done(aborted: bool, target: Option<Address>)

  datatype Table = Table(list: seq<Network>, count: nat, generation: Word)

  function Next(t: Table, c: Change): Table {
    hide Seen, Entered, Thinned;
    match c
    case Beacon(frame, rssi, freq, memory) =>
      if |frame| < 42 || !memory then t
      else
        var n := Seen(frame, rssi, freq, t.generation);
        t.(list := Entered(t.list, n), count := if IndexOf(t.list, n.bssid) < |t.list| then t.count else t.count + 1)
    case Scan =>
      var g := NextGeneration(t.generation);
      t.(list := if t.generation + 1 == GENERATIONS then Renewed(t.list) else t.list, generation := g)
    case Done(aborted, target) =>
      if aborted then t else t.(list := Thinned(t.list, t.generation, target), count := |Thinned(t.list, t.generation, target)|)
  }

  ghost predicate Consistent(t: Table) {
    Sound(t.list, t.generation) && t.count == |t.list|
  }

  lemma SeenSound(frame: bytes, rssi: Signal, freq: nat, generation: Word)
    requires |frame| >= 42
    ensures Beacon.Sound(Seen(frame, rssi, freq, generation).facts) && Seen(frame, rssi, freq, generation).lastSeen == generation
  {
    hide Learn, Elements, ChannelOf, HasRsn, HasWpa;
    LearnFrom(NOTHING_KNOWN, Elements(frame[36..]));
  }

  lemma NextKeeps(t: Table, c: Change)
    requires Consistent(t)
    ensures Consistent(Next(t, c))
  {
    hide Seen, Entered, Thinned, IndexOf, Beacon.Sound;
    match c {
      case Beacon(frame, rssi, freq, memory) =>
        if |frame| >= 42 && memory {
          SeenSound(frame, rssi, freq, t.generation);
          EnteredSound(t.list, Seen(frame, rssi, freq, t.generation), t.generation);
        }
      case Scan =>
        RenewedSound(t.list, t.generation);
      case Done(aborted, target) =>
        ThinnedIs(t.list, t.generation, target);
    }
  }

  lemma RenewedSound(list: seq<Network>, g: Word)
    requires Sound(list, g)
    ensures Sound(Renewed(list), 1)
  {
  }

  function RunTable(t: Table, cs: seq<Change>): Table
    decreases |cs|
  {
    hide Next;
    if |cs| == 0 then t else RunTable(Next(t, cs[0]), cs[1..])
  }

  /** Over every run of beacons, scans and scan ends, through any number of wraps of the scan counter. */
  lemma {:induction false} RunConsistent(t: Table, cs: seq<Change>)
    requires Consistent(t)
    ensures Consistent(RunTable(t, cs))
    decreases |cs|
  {
    hide Next, Consistent;
    if |cs| > 0 {
      NextKeeps(t, cs[0]);
      RunConsistent(Next(t, cs[0]), cs[1..]);
    }
  }

  /** A network last seen at most so many scans ago. */
  ghost predicate Recent(t: Table, bssid: Address, age: int) {
    exists n :: n in t.list && n.bssid == bssid && t.generation - n.lastSeen <= age
  }

  function Scans(cs: seq<Change>): nat {
    if |cs| == 0 then 0 else (if cs[0].Scan? then 1 else 0) + Scans(cs[1..])
  }

  lemma RecentOn(t: Table, c: Change, bssid: Address, age: nat)
    requires Consistent(t) && Recent(t, bssid, age) && age <= 3
    ensures Recent(Next(t, c), bssid, if c.Scan? then age + 1 else age)
  {
    hide Seen, Entered, Thinned, IndexOf, Beacon.Sound;
    var n :| n in t.list && n.bssid == bssid && t.generation - n.lastSeen <= age;
    match c {
      case Beacon(frame, rssi, freq, memory) =>
        if |frame| >= 42 && memory {
          var m := Seen(frame, rssi, freq, t.generation);
          SeenSound(frame, rssi, freq, t.generation);
          EnteredSound(t.list, m, t.generation);
          var witness' := if m.bssid == bssid then m else n;
          assert witness' in Next(t, c).list && witness'.bssid == bssid;
        }
      case Scan =>
        RenewedHas(t.list, n);
        var kept := if t.generation + 1 == GENERATIONS then n.(lastSeen := 1) else n;
        assert kept in Next(t, c).list;
      case Done(aborted, target) =>
        ThinnedIs(t.list, t.generation, target);
        assert n in Next(t, c).list;
    }
  }

  lemma RenewedHas(list: seq<Network>, n: Network)
    requires n in list
    ensures n.(lastSeen := 1) in Renewed(list)
  {
    var i :| 0 <= i < |list| && list[i] == n;
    assert Renewed(list)[i] == n.(lastSeen := 1);
  }

  /** A network stays in the table for three scans after it was last seen, whatever else happens. */
  lemma {:induction false} NotForgottenEarly(t: Table, cs: seq<Change>, bssid: Address, age: nat)
    requires Consistent(t) && Recent(t, bssid, age) && age + Scans(cs) <= 3
    ensures exists n :: n in RunTable(t, cs).list && n.bssid == bssid
    decreases |cs|
  {
    hide Next, Consistent;
    if |cs| > 0 {
      NextKeeps(t, cs[0]);
      RecentOn(t, cs[0], bssid, age);
      NotForgottenEarly(Next(t, cs[0]), cs[1..], bssid, if cs[0].Scan? then age + 1 else age);
    }
  }

  // Looking a network up by name.

  predicate HasName(n: Network, ssid: bytes) {
    KeyDerivation.CString(n.facts.name[..]) == ssid
  }

  function Find(list: seq<Network>, ssid: bytes): Option<Network> {
    hide HasName;
    if |list| == 0 then None else if HasName(list[0], ssid) then Some(list[0]) else Find(list[1..], ssid)
  }

  /** What is found is the first network of this name; nothing is found exactly if there is none. */
  lemma {:induction false} FoundFirst(list: seq<Network>, ssid: bytes)
    ensures match Find(list, ssid)
            case None => forall n :: n in list ==> !HasName(n, ssid)
            case Some(n) => exists i :: 0 <= i < |list| && list[i] == n && FirstAt(list, ssid, i)
  {
    hide HasName;
    if |list| > 0 {
      if HasName(list[0], ssid) {
        assert FirstAt(list, ssid, 0);
      } else {
        FoundFirst(list[1..], ssid);
        if Find(list[1..], ssid).Some? {
          var i :| 0 <= i < |list| - 1 && list[1..][i] == Find(list[1..], ssid).value && FirstAt(list[1..], ssid, i);
          FirstOn(list, ssid, i);
        } else {
          assert list == [list[0]] + list[1..];
        }
      }
    }
  }

  ghost predicate FirstAt(list: seq<Network>, ssid: bytes, i: nat)
    requires i < |list|
  {
    hide HasName;
    HasName(list[i], ssid) && forall j :: 0 <= j < i ==> !HasName(list[j], ssid)
  }

  lemma FirstOn(list: seq<Network>, ssid: bytes, i: nat)
    requires i + 1 < |list| && !HasName(list[0], ssid) && FirstAt(list[1..], ssid, i)
    ensures FirstAt(list, ssid, i + 1)
  {
    hide HasName;
    forall j | 0 <= j < i + 1
      ensures !HasName(list[j], ssid)
    {
      if j > 0 {
        assert list[j] == list[1..][j - 1];
      }
    }
  }

  lemma FindStep(list: seq<Network>, i: nat, ssid: bytes)
    requires i <= |list|
    ensures Find(list[i..], ssid)
         == if i == |list| then None else if HasName(list[i], ssid) then Some(list[i]) else Find(list[i + 1..], ssid)
  {
    hide HasName;
  }

  lemma ThinnedStep(list: seq<Network>, i: nat, generation: Word, target: Option<Address>)
    requires i < |list|
    ensures Thinned(list[i..], generation, target)
         == (if Stays(list[i], generation, target) then [list[i]] else []) + Thinned(list[i + 1..], generation, target)
  {
    hide Stays;
    assert list[i..][1..] == list[i + 1..];
  }

  lemma {:induction false} IndexIs(list: seq<Network>, bssid: Address, i: nat)
    requires i <= |list| && (forall j :: 0 <= j < i ==> list[j].bssid != bssid) && (i < |list| ==> list[i].bssid == bssid)
    ensures IndexOf(list, bssid) == i
  {
    if i > 0 {
      IndexIs(list[1..], bssid, i - 1);
    }
  }

  lemma CountIs(t: Table)
    requires Consistent(t)
    ensures t.count == |t.list|
  {
  }

  lemma ThinnedNothing(generation: Word, target: Option<Address>)
    ensures Thinned([], generation, target) == []
  {
  }

  lemma NameEnds(t: Table, i: nat)
    requires Consistent(t) && i < |t.list|
    ensures 0 in t.list[i].facts.name
  {
    assert t.list[i].facts.name[32] == 0;
  }

  method SameName(n: Network, ssid: bytes) returns (same: bool)
    requires 0 in n.facts.name
    ensures same == HasName(n, ssid)
  {
    hide KeyDerivation.CString;
    assert n.facts.name[..] == n.facts.name;
    var length := KeyDerivation.StringLength(n.facts.name);
    same := length == |ssid| && n.facts.name[..length] == ssid;
  }

  class ScanTable {
    var bssList: seq<Network>
    var bssCount: nat
    var scanGeneration: Word

    ghost function View(): Table
      reads this
    {
      Table(bssList, bssCount, scanGeneration)
    }

    constructor ()
      ensures Consistent(View()) && View() == Table([], 0, 0)
    {
      bssList, bssCount, scanGeneration := [], 0, 0;
    }

    /** A beacon or probe response that came in while scanning. */
    method ProcessScanResult(frame: bytes, rssi: Signal, freq: nat, memory: bool)
      modifies this
      ensures View() == Next(old(View()), Change.Beacon(frame, rssi, freq, memory))
    {
      hide Seen;
      var bss := ReadBeacon(frame, rssi, freq, scanGeneration, memory);
      if bss.None? {
        return;
      }
      var n := bss.value;
      var i := 0;
      while i < |bssList|
        invariant i <= |bssList| && View() == old(View())
        invariant forall j :: 0 <= j < i ==> bssList[j].bssid != n.bssid
      {
        if bssList[i].bssid == n.bssid {
          IndexIs(bssList, n.bssid, i);
          bssList := bssList[i := n];
          return;
        }
        i := i + 1;
      }
      IndexIs(bssList, n.bssid, i);
      bssList := [n] + bssList;
      bssCount := bssCount + 1;
    }

    /** The part of a scan command that counts scans. */
    method BeginScan()
      modifies this
      ensures View() == Next(old(View()), Change.Scan)
    {
      if scanGeneration == 0xffff_ffff {
        scanGeneration := 0;
      } else {
        scanGeneration := scanGeneration + 1;
      }
      if scanGeneration == 0 {
        scanGeneration := 1;
        ghost var was := bssList;
        var i := 0;
        while i < |bssList|
          invariant i <= |bssList| == |was| && bssList[i..] == was[i..]
          invariant forall j :: 0 <= j < i ==> bssList[j] == was[j].(lastSeen := 1)
          modifies `bssList
        {
          bssList := bssList[i := bssList[i].(lastSeen := 1)];
          i := i + 1;
        }
        assert bssList == Renewed(was);
      }
    }

    /** The end of a scan: unless it was aborted, networks not seen for more than three scans go. */
    method ScanDone(aborted: bool, state: State, scanReturn: State, bssid: Address)
      requires Consistent(View())
      modifies this
      ensures View() == Next(old(View()), Done(aborted, Target(state, scanReturn, bssid)))
    {
      hide Stays, Consistent, Thinned, Target;
      if aborted {
        return;
      }
      ghost var target := Target(state, scanReturn, bssid);
      ghost var was := bssList;
      assert bssCount == |bssList| by { CountIs(View()); }
      var i := 0;
      assert was[0..] == was && [] + Thinned(was, scanGeneration, target) == Thinned(was, scanGeneration, target);
      while i < |bssList|
        invariant i <= |bssList| && bssCount == |bssList|
        invariant Thinned(was, scanGeneration, target) == bssList[..i] + Thinned(bssList[i..], scanGeneration, target)
        decreases |bssList| - i
        modifies `bssList, `bssCount
      {
        ThinnedStep(bssList, i, scanGeneration, target);
        ghost var rest := bssList[i + 1..];
        var stays := Keeps(bssList[i], state, scanReturn, bssid);
        if !stays {
          ghost var front := bssList[..i];
          bssList := bssList[..i] + bssList[i + 1..];
          assert bssList[..i] == front && bssList[i..] == rest;
          if bssCount > 0 {
            bssCount := bssCount - 1;
          }
        } else {
          assert bssList[..i + 1] == bssList[..i] + [bssList[i]];
          i := i + 1;
        }
      }
      assert bssList[i..] == [] && bssList[..i] == bssList;
      ThinnedNothing(scanGeneration, target);
    }

    method Keeps(n: Network, state: State, scanReturn: State, bssid: Address) returns (stays: bool)
      ensures stays == Stays(n, scanGeneration, Target(state, scanReturn, bssid))
    {
      var effectiveState := if state == Scanning then scanReturn else state;
      var isTarget := (effectiveState == Connected || effectiveState == Handshaking) && n.bssid == bssid;
      var age := (scanGeneration - n.lastSeen) % 0x1_0000_0000;
      stays := isTarget || age <= 3;
    }

    /** The first network of this name. Names are compared as C strings. */
    method FindBySsid(ssid: bytes) returns (found: Option<Network>)
      requires Consistent(View())
      ensures found == Find(bssList, ssid)
    {
      hide HasName, Consistent;
      var i := 0;
      assert bssList[0..] == bssList;
      while i < |bssList|
        invariant i <= |bssList| && Find(bssList, ssid) == Find(bssList[i..], ssid)
      {
        FindStep(bssList, i, ssid);
        NameEnds(View(), i);
        var same := SameName(bssList[i], ssid);
        if same {
          return Some(bssList[i]);
        }
        i := i + 1;
      }
      return None;
    }
  }
}
