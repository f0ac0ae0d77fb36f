/** What becomes of the networks found: connecting to one by name, and listing them. */
module Networks {
  import opened Bytes
  import opened Options
  import opened StationSpec
  import Beacon
  import BssList
  import BssTable
  import KeyDerivation
  import Passphrase
  import Station

  function CipherOf(suite: int): Cipher {
    if suite == Beacon.CCMP then Ccmp else if suite == Beacon.TKIP then Tkip else NoCipher
  }

  /** What the connect command takes over from the table. */
  function Target(n: Beacon.Network): Bss {
    Bss(n.bssid, Cut(n.facts.name, n.facts.nameLength), CipherOf(n.facts.cipher), CipherOf(n.facts.groupCipher))
  }

  function Targeted(n: Option<Beacon.Network>): Option<Bss> {
    if n.None? then None else Some(Target(n.value))
  }

  /** The network is as this beacon announced it. */
  ghost predicate AnnouncedBy(n: Beacon.Network, frame: bytes) {
    && |frame| >= 42 && n.bssid == frame[16..22]
    && var facts := Beacon.Learn(Beacon.NOTHING_KNOWN, Beacon.Elements(frame[36..]));
      && n.facts.cipher == facts.cipher && n.facts.groupCipher == facts.groupCipher
      && n.facts.name == facts.name && n.facts.nameLength == facts.nameLength
  }

  ghost predicate Announced(n: Beacon.Network, heard: set<bytes>) {
    exists frame :: frame in heard && AnnouncedBy(n, frame)
  }

  ghost predicate AllAnnounced(t: BssTable.Table, heard: set<bytes>) {
    forall n :: n in t.list ==> Announced(n, heard)
  }

  /** The beacons of a history of scans. */
  function Heard(c: BssTable.Change): set<bytes> {
    if c.Beacon? then {c.frame} else {}
  }

  function AllHeard(cs: seq<BssTable.Change>): set<bytes> {
    if |cs| == 0 then {} else Heard(cs[0]) + AllHeard(cs[1..])
  }

  lemma SeenAnnounced(frame: bytes, rssi: int, freq: nat, generation: int, heard: set<bytes>)
    requires |frame| >= 42 && -0x8000 <= rssi < 0x8000 && 0 <= generation < 0x1_0000_0000 && frame in heard
    ensures Announced(Beacon.Seen(frame, rssi, freq, generation), heard)
  {
    hide Beacon.Learn, Beacon.Elements, Beacon.ChannelOf;
    assert AnnouncedBy(Beacon.Seen(frame, rssi, freq, generation), frame);
  }

  lemma RenewedAnnounced(list: seq<Beacon.Network>, heard: set<bytes>)
    requires forall n :: n in list ==> Announced(n, heard)
    ensures forall n :: n in BssTable.Renewed(list) ==> Announced(n, heard)
  {
    hide Beacon.Learn, Beacon.Elements, Announced;
    forall n | n in BssTable.Renewed(list)
      ensures Announced(n, heard)
    {
      var i :| 0 <= i < |list| && BssTable.Renewed(list)[i] == n;
      OlderAnnounced(list[i], heard);
    }
  }

  lemma OlderAnnounced(n: Beacon.Network, heard: set<bytes>)
    requires Announced(n, heard)
    ensures Announced(n.(lastSeen := 1), heard)
  {
    hide Beacon.Learn, Beacon.Elements;
    var frame :| frame in heard && AnnouncedBy(n, frame);
    assert AnnouncedBy(n.(lastSeen := 1), frame);
  }

  lemma MoreHeard(t: BssTable.Table, heard: set<bytes>, more: set<bytes>)
    requires AllAnnounced(t, heard) && heard <= more
    ensures AllAnnounced(t, more)
  {
    hide AnnouncedBy;
  }

  lemma NextAnnounced(t: BssTable.Table, c: BssTable.Change, heard: set<bytes>)
    requires AllAnnounced(t, heard)
    ensures AllAnnounced(BssTable.Next(t, c), heard + Heard(c))
  {
    hide Announced, Beacon.Seen, BssTable.Thinned, BssTable.IndexOf, BssTable.Renewed, AllAnnounced;
    MoreHeard(t, heard, heard + Heard(c));
    AnnouncedIs(t, heard + Heard(c));
    AnnouncedIs(BssTable.Next(t, c), heard + Heard(c));
    match c {
      case Beacon(frame, rssi, freq, memory) =>
        if |frame| >= 42 {
          SeenAnnounced(frame, rssi, freq, t.generation, heard + Heard(c));
        }
      case Scan =>
        RenewedAnnounced(t.list, heard + Heard(c));
      case Done(aborted, target) =>
        BssTable.ThinnedMembers(t.list, t.generation, target);
    }
  }

  lemma AnnouncedIs(t: BssTable.Table, heard: set<bytes>)
    ensures AllAnnounced(t, heard) <==> forall n :: n in t.list ==> Announced(n, heard)
  {
  }

  lemma {:induction false} RunAnnounced(t: BssTable.Table, cs: seq<BssTable.Change>, heard: set<bytes>)
    requires AllAnnounced(t, heard)
    ensures AllAnnounced(BssTable.RunTable(t, cs), heard + AllHeard(cs))
    decreases |cs|
  {
    hide BssTable.Next, AllAnnounced;
    if |cs| == 0 {
      assert heard + {} == heard;
    } else {
      NextAnnounced(t, cs[0], heard);
      RunAnnounced(BssTable.Next(t, cs[0]), cs[1..], heard + Heard(cs[0]));
      assert heard + Heard(cs[0]) + AllHeard(cs[1..]) == heard + AllHeard(cs);
    }
  }

  lemma {:induction false} FoundInList(list: seq<Beacon.Network>, ssid: bytes)
    requires BssTable.Find(list, ssid).Some?
    ensures BssTable.Find(list, ssid).value in list && BssTable.HasName(BssTable.Find(list, ssid).value, ssid)
  {
    hide BssTable.HasName;
    if !BssTable.HasName(list[0], ssid) {
      FoundInList(list[1..], ssid);
    }
  }

  /** The name a beacon announces: its name elements written into one buffer, read as a C string. */
  function AnnouncedName(frame: bytes): bytes
    requires |frame| >= 42
  {
    hide Beacon.Written, Beacon.Names, Beacon.Elements, KeyDerivation.CString;
    KeyDerivation.CString(Beacon.Written(Zeros(33), Beacon.Names(Beacon.Elements(frame[36..])))[..])
  }

  lemma NameAnnounced(n: Beacon.Network, frame: bytes, ssid: bytes)
    requires AnnouncedBy(n, frame) && BssTable.HasName(n, ssid)
    ensures AnnouncedName(frame) == ssid
    ensures var names := Beacon.Names(Beacon.Elements(frame[36..])); |names| == 1 ==> KeyDerivation.CString(names[0]) == ssid
  {
    hide Beacon.Learn, Beacon.Elements, Beacon.Written, Beacon.Names, KeyDerivation.CString;
    var es := Beacon.Elements(frame[36..]);
    Beacon.LearnName(Beacon.NOTHING_KNOWN, es);
    if |Beacon.Names(es)| == 1 {
      Beacon.OneName(es);
    }
  }

  /** The network name of a beacon, as long as its element says. */
  function SsidOf(frame: bytes): bytes
    requires |frame| >= 42
  {
    hide Beacon.LastName, Beacon.Elements;
    Beacon.LastName(Beacon.Elements(frame[36..]))
  }

  lemma TargetSsid(n: Beacon.Network, frame: bytes)
    requires AnnouncedBy(n, frame)
    ensures Cut(n.facts.name, n.facts.nameLength) == SsidOf(frame) && |SsidOf(frame)| <= 32
  {
    hide Beacon.Learn, Beacon.Elements, Beacon.LastName;
    Beacon.NameLearned(Beacon.Elements(frame[36..]));
  }

  /** The group cipher the station will use with the network of a beacon: TKIP if the last RSN element selected says so. */
  predicate GroupIsTkip(frame: bytes)
    requires |frame| >= 42
  {
    hide Beacon.LastRsn, Beacon.Elements, Beacon.Select;
    var rsn := Beacon.LastRsn(Beacon.Elements(frame[36..]));
    rsn.Some? && Beacon.Select(rsn.value) == Some(Beacon.TKIP)
  }

  lemma TargetGroup(n: Beacon.Network, frame: bytes)
    requires AnnouncedBy(n, frame)
    ensures Beacon.HasRsn(Beacon.Elements(frame[36..])) ==> (CipherOf(n.facts.groupCipher) == Tkip <==> GroupIsTkip(frame))
  {
    hide Beacon.Learn, Beacon.Elements, Beacon.HasRsn, Beacon.LastRsn, Beacon.Select;
    Beacon.GroupLearned(Beacon.NOTHING_KNOWN, Beacon.Elements(frame[36..]));
  }

  /** The station aims at the network this beacon announced: its address and its name, WPA2 exactly when the beacon has an
      RSN element the driver can select, the group cipher that element gives, and the master key of that name. */
  ghost predicate AimedAt(t: Sta, frame: bytes, secret: bytes)
    requires |frame| >= 42
  {
    hide Beacon.HasRsn, Beacon.Elements, SsidOf, GroupIsTkip, Passphrase.MasterKey, KeyDerivation.Pbkdf2, KeyDerivation.CString;
    && t.state == Authenticating && t.target.bssid == frame[16..22] && t.target.ssid == SsidOf(frame)
    && (t.wpa2 <==> Beacon.HasRsn(Beacon.Elements(frame[36..])))
    && (t.wpa2 ==> (GroupCipher(t) == Tkip <==> GroupIsTkip(frame)))
    && Passphrase.MasterKey(t) == KeyDerivation.Pbkdf2(Cut(KeyDerivation.CString(secret), 63), SsidOf(frame), 4096)
  }

  /** After any history of scans: connecting by name aims at a network that one of the beacons heard announced under
      that name. The name is compared as a C string, and goes on as the bytes of the name element; with one name element
      and no zero in it these are the same. */
  lemma ConnectsAsAnnounced(cs: seq<BssTable.Change>, ssid: bytes, s: Sta, secret: bytes, ended: bool, thread: bool)
    returns (frame: bytes)
    requires var list := BssTable.RunTable(BssTable.Table([], 0, 0), cs).list;
      BssTable.Find(list, ssid).Some? && AbortScan(s, ended).state == Idle
    ensures var n := BssTable.Find(BssTable.RunTable(BssTable.Table([], 0, 0), cs).list, ssid).value;
            var t := Connecting(s, Connect(true, Some(Target(n)), secret, ended, thread));
      && frame in AllHeard(cs) && AnnouncedBy(n, frame) && AnnouncedName(frame) == ssid && AimedAt(t, frame, secret)
      && var names := Beacon.Names(Beacon.Elements(frame[36..])); |names| == 1 ==> KeyDerivation.CString(names[0]) == ssid
  {
    hide Beacon.Learn, Beacon.Elements, Beacon.HasRsn, Beacon.Names, BssTable.RunTable, BssTable.Find, BssTable.HasName, AbortScan,
      AnnouncedName, KeyDerivation.CString, Connecting, AimedAt;
    var t0 := BssTable.Table([], 0, 0);
    RunAnnounced(t0, cs, {});
    assert {} + AllHeard(cs) == AllHeard(cs);
    var list := BssTable.RunTable(t0, cs).list;
    FoundInList(list, ssid);
    var n := BssTable.Find(list, ssid).value;
    assert Announced(n, AllHeard(cs));
    frame :| frame in AllHeard(cs) && AnnouncedBy(n, frame);
    NameAnnounced(n, frame, ssid);
    AimsAt(s, n, frame, secret, ended, thread);
  }

  lemma AimsAt(s: Sta, n: Beacon.Network, frame: bytes, secret: bytes, ended: bool, thread: bool)
    requires AnnouncedBy(n, frame) && AbortScan(s, ended).state == Idle
    ensures AimedAt(Connecting(s, Connect(true, Some(Target(n)), secret, ended, thread)), frame, secret)
  {
    hide Beacon.Learn, Beacon.Elements, Beacon.HasRsn, AbortScan, ReleasePeer, ClearKeys, KeyDerivation.CString, SsidOf, GroupIsTkip,
      KeyDerivation.Pbkdf2;
    TargetSsid(n, frame);
    TargetGroup(n, frame);
    Beacon.CipherMeans(frame[36..]);
  }

  /** The connect command with its lookup. */
  method CmdConnect(station: Station.Station, table: BssTable.ScanTable, ssid: bytes, secret: bytes, ended: bool, thread: bool)
    returns (ok: bool)
    requires BssTable.Consistent(table.View())
    modifies station
    ensures station.View()
         == Connecting(old(station.View()), Connect(true, Targeted(BssTable.Find(old(table.bssList), ssid)), secret, ended, thread))
  {
    hide BssTable.Find, BssTable.Consistent, Connecting;
    var found := table.FindBySsid(ssid);
    ok := station.CmdConnect(true, Targeted(found), secret, ended, thread);
  }

  // The list of networks.

  /** What the list shows of a network. */
  function Listed(n: Beacon.Network): BssList.Entry {
    BssList.Entry(Cut(n.facts.name, n.facts.nameLength), n.bssid, n.rssi, n.facts.channel, n.facts.cipher)
  }

  function AllListed(list: seq<Beacon.Network>): (es: seq<BssList.Entry>)
    ensures |es| == |list|
    ensures forall i :: 0 <= i < |list| ==> es[i] == Listed(list[i])
  {
    seq(|list|, i requires 0 <= i < |list| => Listed(list[i]))
  }

  lemma ListedNamed(t: BssTable.Table)
    requires BssTable.Consistent(t)
    ensures BssList.Named(AllListed(t.list))
  {
    hide BssTable.Unique;
  }

  lemma EmptyConsistent()
    ensures BssTable.Consistent(BssTable.Table([], 0, 0))
  {
  }

  /** This row shows what the beacon announced. */
  ghost predicate RowOf(e: BssList.Entry, frame: bytes) {
    hide SsidOf, Beacon.Learn, Beacon.Elements;
    && |frame| >= 42 && e.bssid == frame[16..22] && e.ssid == SsidOf(frame)
    && e.cipher == Beacon.Learn(Beacon.NOTHING_KNOWN, Beacon.Elements(frame[36..])).cipher
  }

  ghost predicate RowHeard(e: BssList.Entry, heard: set<bytes>) {
    exists frame :: frame in heard && RowOf(e, frame)
  }

  lemma RowAnnounced(n: Beacon.Network, heard: set<bytes>)
    requires Announced(n, heard)
    ensures RowHeard(Listed(n), heard)
  {
    hide Beacon.Learn, Beacon.Elements, SsidOf;
    var frame :| frame in heard && AnnouncedBy(n, frame);
    TargetSsid(n, frame);
    assert RowOf(Listed(n), frame);
  }

  /** After any history of scans, for every capacity: the program shows the longest prefix of the table that fits, no
      address twice, and every row is what a beacon heard announced, address, name and cipher. */
  lemma ShownAfterScans(cs: seq<BssTable.Change>, capacity: nat)
    ensures var list := BssTable.RunTable(BssTable.Table([], 0, 0), cs).list;
            var es := AllListed(list); var shown := BssList.Parse(BssList.Reply(es, capacity));
            var max := if capacity > 4095 then 4095 else capacity;
      && shown <= es
      && (if max < 4 then shown == [] else 4 + |BssList.EncodeAll(shown)| <= max)
      && (max >= 4 && |shown| < |es| ==> 4 + |BssList.EncodeAll(es[..|shown| + 1])| > max)
      && (forall i, j :: 0 <= i < j < |shown| ==> shown[i].bssid != shown[j].bssid)
      && forall i :: 0 <= i < |shown| ==> shown[i] == Listed(list[i]) && RowHeard(shown[i], AllHeard(cs))
  {
    hide BssTable.RunTable, BssList.Parse, BssList.Reply, BssList.EncodeAll, Announced, RowHeard;
    var t0 := BssTable.Table([], 0, 0);
    EmptyConsistent();
    BssTable.RunConsistent(t0, cs);
    var t := BssTable.RunTable(t0, cs);
    ListedNamed(t);
    var es := AllListed(t.list);
    BssList.ListRoundTrip(es, capacity);
    var shown := BssList.Parse(BssList.Reply(es, capacity));
    RunAnnounced(t0, cs, {});
    assert {} + AllHeard(cs) == AllHeard(cs);
    AddressesOnce(t, shown);
    forall i | 0 <= i < |shown|
      ensures shown[i] == Listed(t.list[i]) && RowHeard(shown[i], AllHeard(cs))
    {
      assert t.list[i] in t.list && shown[i] == es[i];
      RowAnnounced(t.list[i], AllHeard(cs));
    }
  }

  lemma AddressesOnce(t: BssTable.Table, shown: seq<BssList.Entry>)
    requires BssTable.Consistent(t) && shown <= AllListed(t.list)
    ensures forall i, j :: 0 <= i < j < |shown| ==> shown[i].bssid != shown[j].bssid
  {
    hide Beacon.Sound;
    forall i, j | 0 <= i < j < |shown|
      ensures shown[i].bssid != shown[j].bssid
    {
      assert shown[i] == Listed(t.list[i]) && shown[j] == Listed(t.list[j]);
    }
  }

  /** The list command on the table. */
  method CmdGetBssList(table: BssTable.ScanTable, buf: array<bv8>, capacity: nat) returns (len: nat)
    requires capacity <= buf.Length
    modifies buf
    ensures len <= capacity && buf[..len] == BssList.Reply(AllListed(table.bssList), capacity)
  {
    hide BssList.Reply;
    len := BssList.CmdGetBssList(AllListed(table.bssList), buf, capacity);
  }
}
