/** What a scan learns from one beacon or probe response. */
module Beacon {
  import opened Bytes
  import opened Options
  import opened BssList
  import opened CipherSuites
  import Kde
  import KeyDerivation

  const NO_CIPHER: Word := 0
  const CCMP: Word := 0x000FAC04
  const TKIP: Word := 0x000FAC02

  type Name = s: bytes | |s| == 33 witness Zeros(33)

  // The RSN element, section 9.4.2.25 of IEEE Std 802.11-2016.

  /** An RSN element body; rest is what follows the key management suites. */
  datatype Rsn = Rsn(version: bytes, group: Suite, pairwise: seq<Suite>, akm: seq<Suite>, rest: bytes)

  function Suites(ss: seq<Suite>): (b: bytes)
    ensures |b| == 4 * |ss|
  {
    if |ss| == 0 then [] else ss[0] + Suites(ss[1..])
  }

  function Counted(ss: seq<Suite>): bytes {
    [Byte(|ss|), Byte(|ss| / 256)] + Suites(ss)
  }

  function EncodeRsn(r: Rsn): bytes {
    hide Counted;
    r.version + r.group + Counted(r.pairwise) + Counted(r.akm) + r.rest
  }

  /** Whether a suite is among the n four-byte groups at the front of the bytes. */
  predicate Among(suite: Suite, n: nat, b: bytes)
    requires 4 * n <= |b|
  {
    n > 0 && (b[..4] == suite || Among(suite, n - 1, b[4..]))
  }

  function Count(b: bytes): nat
    requires |b| >= 2
  {
    Val(b[0]) + 256 * Val(b[1])
  }

  /** The group cipher of an element that offers CCMP and a pre-shared key; anything but TKIP counts as CCMP. */
  function Select(b: bytes): Option<Word> {
    hide Count;
    if |b| < 8 then None
    else
      var n := Count(b[6..]);
      if 8 + 4 * n > |b| then None
      else
        var c := b[8 + 4 * n..];
        if |c| < 2 then None
        else
          var m := Count(c);
          if 2 + 4 * m > |c| then None
          else if !Among(CCMP_SUITE, n, b[8..]) || !Among(PSK_SUITE, m, c[2..]) then None
          else Some(if b[2..6] == TKIP_SUITE then TKIP else CCMP)
  }

  lemma {:induction false} AmongSuites(suite: Suite, ss: seq<Suite>, rest: bytes)
    ensures |Suites(ss) + rest| >= 4 * |ss|
    ensures Among(suite, |ss|, Suites(ss) + rest) <==> suite in ss
  {
    if |ss| > 0 {
      AmongSuites(suite, ss[1..], rest);
      var b := Suites(ss) + rest;
      assert b[..4] == ss[0] && b[4..] == Suites(ss[1..]) + rest;
      assert ss == [ss[0]] + ss[1..];
    }
  }

  lemma CountedRead(ss: seq<Suite>, rest: bytes)
    requires |ss| < 0x1_0000
    ensures |Counted(ss)| == 2 + 4 * |ss|
    ensures var b := Counted(ss) + rest;
      |b| >= 2 + 4 * |ss| && Count(b) == |ss| && b[2..] == Suites(ss) + rest && b[2 + 4 * |ss|..] == rest
  {
    hide Val, Byte, Suites;
    ValByte(|ss|);
    ValByte(|ss| / 256);
    var b := Counted(ss) + rest;
    assert b[2..] == Suites(ss) + rest;
  }

  lemma Layout(p: bytes, q: bytes, r: bytes, s: bytes, t: bytes, n: nat)
    requires |p| == 2 && |q| == 4 && |r| == 2 + 4 * n
    ensures var b := p + q + r + s + t;
      && |b| >= 8 + 4 * n && b[2..6] == q && b[6..] == r + (s + t) && b[8..] == (r + (s + t))[2..] && b[8 + 4 * n..] == s + t
  {
    var b := p + q + r + s + t;
    assert b == p + q + (r + (s + t));
    assert b[6..][2..] == b[8..];
  }

  /** An RSN element is selected exactly when it lists CCMP and pre-shared key, wherever they stand in the lists. */
  lemma RsnSelected(r: Rsn)
    requires |r.version| == 2 && |r.pairwise| < 0x1_0000 && |r.akm| < 0x1_0000
    ensures Select(EncodeRsn(r)) == if CCMP_SUITE in r.pairwise && PSK_SUITE in r.akm
                                    then Some(if r.group == TKIP_SUITE then TKIP else CCMP) else None
  {
    hide Counted, Count, Among, Suites;
    var behind := Counted(r.akm) + r.rest;
    CountedRead(r.pairwise, behind);
    CountedRead(r.akm, r.rest);
    Layout(r.version, r.group, Counted(r.pairwise), Counted(r.akm), r.rest, |r.pairwise|);
    AmongSuites(CCMP_SUITE, r.pairwise, behind);
    AmongSuites(PSK_SUITE, r.akm, r.rest);
  }

  lemma {:induction false} AmongSnoc(suite: Suite, i: nat, b: bytes)
    requires 4 * i + 4 <= |b|
    ensures Among(suite, i + 1, b) <==> Among(suite, i, b) || b[4 * i..4 * i + 4] == suite
  {
    if i > 0 {
      AmongSnoc(suite, i - 1, b[4..]);
      assert b[4..][4 * (i - 1)..4 * (i - 1) + 4] == b[4 * i..4 * i + 4];
    } else {
      assert b[4 * i..4 * i + 4] == b[..4];
    }
  }

  /** Looks through n suites of the element. */
  method HasSuite(suite: Suite, n: nat, b: bytes) returns (has: bool)
    requires 4 * n <= |b|
    ensures has == Among(suite, n, b)
  {
    has := false;
    for i := 0 to n
      invariant has == Among(suite, i, b)
    {
      AmongSnoc(suite, i, b);
      if b[4 * i..4 * i + 4] == suite {
        has := true;
      }
    }
  }

  method RsnSelect(b: bytes) returns (group: Option<Word>)
    ensures group == Select(b)
  {
    hide Count, Among;
    if |b| < 8 {
      return None;
    }
    var groupSuite := b[2..6];
    var n := Count(b[6..]);
    var p := 8;
    if p + 4 * n > |b| {
      return None;
    }
    var hasCcmp := HasSuite(CCMP_SUITE, n, b[p..]);
    p := p + 4 * n;
    if p + 2 > |b| {
      return None;
    }
    ghost var c := b[p..];
    var m := Count(b[p..]);
    p := p + 2;
    if p + 4 * m > |b| {
      return None;
    }
    assert b[p..] == c[2..];
    var hasPsk := HasSuite(PSK_SUITE, m, b[p..]);
    if !hasCcmp || !hasPsk {
      return None;
    }
    return Some(if groupSuite == TKIP_SUITE then TKIP else CCMP);
  }

  // The walk over the elements.

  /** What is known of a network: its name buffer with the length of the name, and the rest. */
  datatype Facts = Facts(name: Name, nameLength: nat, channel: bv8, cipher: Word, groupCipher: Word, ies: bytes)

  const NOTHING_KNOWN: Facts := Facts(Zeros(33), 0, 0, NO_CIPHER, NO_CIPHER, [])

  const WPA_OUI: bytes := [0x00, 0x50, 0xf2, 0x01]

  predicate IsWpa(e: Kde.Element) {
    e.id == 0xdd && |e.body| >= 8 && e.body[..4] == WPA_OUI
  }

  predicate IsSelectedRsn(e: Kde.Element) {
    hide Select;
    e.id == 48 && Select(e.body).Some?
  }

  /** What one element adds. */
  function Note(f: Facts, e: Kde.Element): Facts {
    hide Select;
    if e.id == 0 && 0 < |e.body| <= MAX_SSID then f.(name := e.body + f.name[|e.body|..], nameLength := |e.body|)
    else if e.id == 3 && |e.body| >= 1 then f.(channel := e.body[0])
    else if e.id == 61 && |e.body| >= 1 && f.channel == 0 then f.(channel := e.body[0])
    else if IsSelectedRsn(e) then f.(cipher := CCMP, groupCipher := Select(e.body).value)
    else if IsWpa(e) && f.cipher == NO_CIPHER then f.(cipher := TKIP, groupCipher := TKIP)
    else f
  }

  /** The copy of the elements, kept for the association request, takes only those that still fit. */
  function Copied(f: Facts, e: Kde.Element): Facts {
    f.(ies := if |f.ies| + 2 + |e.body| < 512 then f.ies + [e.id, Byte(|e.body|)] + e.body else f.ies)
  }

  function Learn(f: Facts, es: seq<Kde.Element>): Facts
    decreases |es|
  {
    hide Note, Copied;
    if |es| == 0 then f else Learn(Copied(Note(f, es[0]), es[0]), es[1..])
  }

  /** The elements in the bytes, up to the first that is cut off. */
  function Elements(b: bytes): seq<Kde.Element> {
    hide Val;
    if |b| < 2 || |b| < 2 + Val(b[1]) then [] else [Kde.Element(b[0], b[2..2 + Val(b[1])])] + Elements(b[2 + Val(b[1])..])
  }

  /** The name always fits its buffer with a closing zero, and the copy of the elements its 512 bytes. */
  ghost predicate Sound(f: Facts) {
    f.name[32] == 0 && f.nameLength <= MAX_SSID && |f.ies| < 512
  }

  ghost predicate HasRsn(es: seq<Kde.Element>) {
    exists e :: e in es && IsSelectedRsn(e)
  }

  ghost predicate HasWpa(es: seq<Kde.Element>) {
    exists e :: e in es && IsWpa(e)
  }

  lemma NoteKeeps(f: Facts, e: Kde.Element)
    requires Sound(f)
    ensures Sound(Copied(Note(f, e), e))
    ensures Copied(Note(f, e), e).cipher == if IsSelectedRsn(e) then CCMP else if IsWpa(e) && f.cipher == NO_CIPHER then TKIP else f.cipher
  {
    hide Select;
  }

  /** What the walk leaves, from any starting point. */
  lemma {:induction false} LearnFrom(f: Facts, es: seq<Kde.Element>)
    requires Sound(f) && f.cipher in {NO_CIPHER, CCMP, TKIP}
    ensures Sound(Learn(f, es))
    ensures Learn(f, es).cipher == if HasRsn(es) || f.cipher == CCMP then CCMP
                                   else if HasWpa(es) || f.cipher == TKIP then TKIP else NO_CIPHER
    decreases |es|
  {
    hide Note, Copied, IsSelectedRsn, IsWpa;
    if |es| > 0 {
      NoteKeeps(f, es[0]);
      LearnFrom(Copied(Note(f, es[0]), es[0]), es[1..]);
      assert es == [es[0]] + es[1..];
      assert HasRsn(es) <==> IsSelectedRsn(es[0]) || HasRsn(es[1..]);
      assert HasWpa(es) <==> IsWpa(es[0]) || HasWpa(es[1..]);
      RsnIsNotWpa(es[0]);
    }
  }

  // The name a network goes by.

  predicate IsName(e: Kde.Element) {
    e.id == 0 && 0 < |e.body| <= MAX_SSID
  }

  /** The names among the elements, in order. */
  function Names(es: seq<Kde.Element>): seq<bytes> {
    if |es| == 0 then [] else (if IsName(es[0]) then [es[0].body] else []) + Names(es[1..])
  }

  /** Names written into the buffer one after the other; a shorter one leaves the end of a longer one. */
  function Written(buffer: Name, names: seq<bytes>): Name
    decreases |names|
  {
    if |names| == 0 then buffer
    else Written(if |names[0]| <= 33 then names[0] + buffer[|names[0]|..] else buffer, names[1..])
  }

  lemma NoteName(f: Facts, e: Kde.Element)
    ensures Copied(Note(f, e), e).name == if IsName(e) then e.body + f.name[|e.body|..] else f.name
  {
    hide Select;
  }

  lemma NamesOn(es: seq<Kde.Element>)
    requires |es| > 0
    ensures IsName(es[0]) ==> |Names(es)| > 0 && Names(es)[0] == es[0].body && Names(es)[1..] == Names(es[1..])
    ensures !IsName(es[0]) ==> Names(es) == Names(es[1..])
  {
  }

  lemma {:induction false} LearnName(f: Facts, es: seq<Kde.Element>)
    ensures Learn(f, es).name == Written(f.name, Names(es))
    decreases |es|
  {
    hide Note, Copied;
    if |es| > 0 {
      NoteName(f, es[0]);
      LearnName(Copied(Note(f, es[0]), es[0]), es[1..]);
      NamesOn(es);
    }
  }

  /** The last name of the elements, none if there is none. */
  function LastName(es: seq<Kde.Element>): bytes {
    hide Names;
    var names := Names(es);
    if |names| == 0 then [] else names[|names| - 1]
  }

  lemma NoteLength(f: Facts, e: Kde.Element)
    ensures Copied(Note(f, e), e).nameLength == if IsName(e) then |e.body| else f.nameLength
  {
    hide Select;
  }

  /** From any start: the length and that many bytes of the buffer are the last name, if there is one. */
  lemma {:induction false} LearnLastName(f: Facts, es: seq<Kde.Element>)
    ensures var g := Learn(f, es); var names := Names(es);
      if |names| == 0 then g.nameLength == f.nameLength && g.name == f.name
      else g.nameLength == |names[|names| - 1]| <= 33 && g.name[..g.nameLength] == names[|names| - 1]
    decreases |es|
  {
    hide Note, Copied, Names;
    if |es| == 0 {
      assert Names([]) == [] by { NoNames(); }
    } else {
      var g := Copied(Note(f, es[0]), es[0]);
      NoteLength(f, es[0]);
      NoteName(f, es[0]);
      LearnLastName(g, es[1..]);
      NamesOn(es);
      if |Names(es[1..])| == 0 && IsName(es[0]) {
        assert g.name[..g.nameLength] == es[0].body;
      }
    }
  }

  lemma NoNames()
    ensures Names([]) == []
  {
  }

  /** After the walk over a beacon: name and length are those of the last name element, or nothing. */
  lemma NameLearned(es: seq<Kde.Element>)
    ensures var f := Learn(NOTHING_KNOWN, es);
      f.nameLength == |LastName(es)| <= MAX_SSID && f.name[..f.nameLength] == LastName(es)
  {
    hide Learn, Names;
    LearnLastName(NOTHING_KNOWN, es);
    NamesShort(es);
    var names := Names(es);
    assert |names| > 0 ==> names[|names| - 1] in names;
  }

  // Channel, group cipher and the copy of the elements.

  /** The last element of this kind that has a body. */
  function LastOf(es: seq<Kde.Element>, id: bv8): Option<Kde.Element> {
    if |es| == 0 then None
    else
      var later := LastOf(es[1..], id);
      if later.Some? then later else if es[0].id == id && |es[0].body| >= 1 then Some(es[0]) else None
  }

  lemma NoteChannel(f: Facts, e: Kde.Element)
    ensures Copied(Note(f, e), e).channel
         == if e.id == 3 && |e.body| >= 1 then e.body[0] else if e.id == 61 && |e.body| >= 1 && f.channel == 0 then e.body[0] else f.channel
  {
    hide Select;
  }

  lemma {:induction false} LastOfHas(es: seq<Kde.Element>, id: bv8)
    ensures LastOf(es, id).Some? ==> |LastOf(es, id).value.body| >= 1
  {
    if |es| > 0 {
      LastOfHas(es[1..], id);
    }
  }

  /** The channel is that of the last DS element, if that is not 0, whatever HT elements there are; without a DS element a
      channel once found stays. */
  lemma {:induction false} ChannelLearned(f: Facts, es: seq<Kde.Element>)
    ensures var ds := LastOf(es, 3);
      && (ds.Some? ==> |ds.value.body| >= 1)
      && (ds.Some? && ds.value.body[0] != 0 ==> Learn(f, es).channel == ds.value.body[0])
      && (ds.None? && f.channel != 0 ==> Learn(f, es).channel == f.channel)
      && (ds.None? && f.channel == 0 && LastOf(es, 61).None? ==> Learn(f, es).channel == 0)
    decreases |es|
  {
    hide Note, Copied;
    if |es| > 0 {
      NoteChannel(f, es[0]);
      ChannelLearned(Copied(Note(f, es[0]), es[0]), es[1..]);
    }
  }

  /** The body of the last RSN element that can be selected. */
  function LastRsn(es: seq<Kde.Element>): Option<bytes> {
    hide IsSelectedRsn;
    if |es| == 0 then None
    else
      var later := LastRsn(es[1..]);
      if later.Some? then later else if IsSelectedRsn(es[0]) then Some(es[0].body) else None
  }

  lemma NoteGroup(f: Facts, e: Kde.Element)
    ensures IsSelectedRsn(e) ==> Select(e.body).Some? && Copied(Note(f, e), e).groupCipher == Select(e.body).value && Note(f, e).cipher == CCMP
    ensures !IsSelectedRsn(e) ==>
      Copied(Note(f, e), e).groupCipher == if IsWpa(e) && f.cipher == NO_CIPHER then TKIP else f.groupCipher
  {
    hide Select;
  }

  /** The group cipher is the one that the last RSN element selected gives. */
  lemma {:induction false} GroupLearned(f: Facts, es: seq<Kde.Element>)
    ensures LastRsn(es).Some? <==> HasRsn(es)
    ensures LastRsn(es).Some? ==> Select(LastRsn(es).value) == Some(Learn(f, es).groupCipher)
    ensures LastRsn(es).None? && f.cipher != NO_CIPHER ==> Learn(f, es).groupCipher == f.groupCipher
    decreases |es|
  {
    hide Note, Copied, Select, IsSelectedRsn, IsWpa;
    if |es| > 0 {
      var g := Copied(Note(f, es[0]), es[0]);
      NoteGroup(f, es[0]);
      CipherKept(f, es[0]);
      GroupLearned(g, es[1..]);
      assert es == [es[0]] + es[1..];
      assert HasRsn(es) <==> IsSelectedRsn(es[0]) || HasRsn(es[1..]);
    }
  }

  lemma CipherKept(f: Facts, e: Kde.Element)
    ensures f.cipher != NO_CIPHER || IsSelectedRsn(e) ==> Copied(Note(f, e), e).cipher != NO_CIPHER
  {
    hide Select;
  }

  /** The elements as they stood in the frame. */
  function Raw(es: seq<Kde.Element>): bytes {
    hide Byte;
    if |es| == 0 then [] else [es[0].id, Byte(|es[0].body|)] + es[0].body + Raw(es[1..])
  }

  /** They are the bytes at the front, up to an element that is cut off. */
  lemma {:induction false} RawElements(b: bytes)
    ensures |Raw(Elements(b))| <= |b| && Raw(Elements(b)) == b[..|Raw(Elements(b))|]
    decreases |b|
  {
    hide Val, Byte;
    if |b| >= 2 && |b| >= 2 + Val(b[1]) {
      var n := Val(b[1]);
      RawElements(b[2 + n..]);
      ByteOfLength(b[1]);
      RawOn(Kde.Element(b[0], b[2..2 + n]), Elements(b[2 + n..]));
      var more := Raw(Elements(b[2 + n..]));
      assert Raw(Elements(b)) == [b[0], b[1]] + b[2..2 + n] + more;
      Front(b, n, |more|);
    }
  }

  lemma RawOn(e: Kde.Element, es: seq<Kde.Element>)
    ensures Raw([e] + es) == [e.id, Byte(|e.body|)] + e.body + Raw(es)
  {
    hide Byte;
    assert ([e] + es)[1..] == es;
  }

  lemma Front(b: bytes, n: nat, m: nat)
    requires 2 + n + m <= |b|
    ensures b[..2 + n + m] == [b[0], b[1]] + b[2..2 + n] + b[2 + n..][..m]
  {
  }

  lemma NoteIes(f: Facts, e: Kde.Element)
    ensures Note(f, e).ies == f.ies
  {
    hide Select;
  }

  /** The copy for the association request holds all elements, if they are fewer than 512 bytes. */
  lemma {:induction false} IesLearned(f: Facts, es: seq<Kde.Element>)
    requires |f.ies| + |Raw(es)| < 512
    ensures Learn(f, es).ies == f.ies + Raw(es)
    decreases |es|
  {
    hide Note, Byte;
    if |es| == 0 {
      assert f.ies + [] == f.ies;
    } else {
      hide Copied, Raw;
      var e, g := es[0], Copied(Note(f, es[0]), es[0]);
      CopiedIes(f, e);
      assert es == [e] + es[1..];
      RawOn(e, es[1..]);
      IesLearned(g, es[1..]);
      Regrouped(f.ies, [e.id, Byte(|e.body|)], e.body, Raw(es[1..]));
    }
  }

  lemma CopiedIes(f: Facts, e: Kde.Element)
    ensures |f.ies| + 2 + |e.body| < 512 ==> Copied(Note(f, e), e).ies == f.ies + [e.id, Byte(|e.body|)] + e.body
  {
    hide Note, Byte;
    NoteIes(f, e);
  }

  lemma Regrouped(p: bytes, q: bytes, r: bytes, s: bytes)
    ensures p + q + r + s == p + (q + r + s)
  {
  }

  lemma {:induction false} NamesShort(es: seq<Kde.Element>)
    ensures forall name :: name in Names(es) ==> 0 < |name| <= MAX_SSID
  {
    if |es| > 0 {
      NamesShort(es[1..]);
    }
  }

  lemma {:induction false} CStringPadded(b: bytes, n: nat)
    requires n > 0
    ensures KeyDerivation.CString(b + Zeros(n)) == KeyDerivation.CString(b)
  {
    if |b| == 0 {
      assert b + Zeros(n) == Zeros(n) && Zeros(n)[0] == 0;
    } else {
      assert (b + Zeros(n))[0] == b[0] && (b + Zeros(n))[1..] == b[1..] + Zeros(n);
      CStringPadded(b[1..], n);
    }
  }

  /** A beacon with one name: the buffer holds that name as a C string. */
  lemma OneName(es: seq<Kde.Element>)
    requires |Names(es)| == 1
    ensures KeyDerivation.CString(Learn(NOTHING_KNOWN, es).name[..]) == KeyDerivation.CString(Names(es)[0])
  {
    hide Learn, KeyDerivation.CString;
    var name := Names(es)[0];
    NamesShort(es);
    LearnName(NOTHING_KNOWN, es);
    assert Names(es)[1..] == [];
    assert Zeros(33)[|name|..] == Zeros(33 - |name|);
    CStringPadded(name, 33 - |name|);
    assert Learn(NOTHING_KNOWN, es).name[..] == name + Zeros(33 - |name|);
  }

  lemma RsnIsNotWpa(e: Kde.Element)
    ensures !(IsSelectedRsn(e) && IsWpa(e))
  {
    hide Select;
  }

  /** The station treats a network as WPA2 exactly when some RSN element in its beacon can be selected,
      and as TKIP exactly when none can and there is a WPA element, in whatever order they come. */
  lemma CipherMeans(b: bytes)
    ensures var f := Learn(NOTHING_KNOWN, Elements(b));
      && Sound(f)
      && (f.cipher == CCMP <==> HasRsn(Elements(b)))
      && (f.cipher == TKIP <==> !HasRsn(Elements(b)) && HasWpa(Elements(b)))
  {
    hide Learn, Elements, HasRsn, HasWpa;
    LearnFrom(NOTHING_KNOWN, Elements(b));
  }

  /** The channel from the frequency, when no element gave it. */
  function ChannelOf(freq: nat): bv8 {
    if freq == 2484 then 14
    else if 2412 <= freq <= 2472 then ((freq - 2407) / 5) as bv8
    else if 5000 <= freq <= 5900 then ((freq - 5000) / 5) as bv8
    else 0
  }

  /** Every channel is recovered from its centre frequency. */
  lemma ChannelRecovered(channel: nat)
    ensures 1 <= channel <= 13 ==> ChannelOf(2407 + 5 * channel) == channel as bv8
    ensures channel <= 180 ==> ChannelOf(5000 + 5 * channel) == channel as bv8
    ensures ChannelOf(2484) == 14
  {
  }

  /** One network of the scan table. */
  datatype Network = Network(bssid: Address, facts: Facts, rssi: Signal, freq: nat, lastSeen: Word)

  /** The network a beacon of at least 42 bytes shows; shorter ones are not looked at. */
  function Seen(frame: bytes, rssi: Signal, freq: nat, generation: Word): Network
    requires |frame| >= 42
  {
    hide Learn, Elements, ChannelOf;
    var f := Learn(NOTHING_KNOWN, Elements(frame[36..]));
    Network(frame[16..22], if f.channel == 0 then f.(channel := ChannelOf(freq)) else f, rssi, freq, generation)
  }

  method NoteElement(f: Facts, id: bv8, body: bytes) returns (g: Facts)
    requires |body| < 256
    ensures g == Note(f, Kde.Element(id, body))
  {
    hide Select;
    var len := |body|;
    g := f;
    if id == 0 && len > 0 && len <= 32 {
      g := g.(name := body + g.name[len..], nameLength := len);
    } else if id == 3 && len >= 1 {
      g := g.(channel := body[0]);
    } else if id == 61 && len >= 1 && g.channel == 0 {
      g := g.(channel := body[0]);
    } else if id == 48 {
      var group := RsnSelect(body);
      if group.Some? {
        g := g.(cipher := CCMP, groupCipher := group.value);
      }
    } else if id == 221 && len >= 8 && body[..4] == [0x00, 0x50, 0xf2, 0x01] && g.cipher == NO_CIPHER {
      g := g.(cipher := TKIP, groupCipher := TKIP);
    }
  }

  lemma ElementsStep(b: bytes, p: nat)
    requires p <= |b|
    ensures Elements(b[p..])
         == if p + 2 > |b| || p + 2 + Val(b[p + 1]) > |b| then []
            else [Kde.Element(b[p], b[p + 2..p + 2 + Val(b[p + 1])])] + Elements(b[p + 2 + Val(b[p + 1])..])
  {
    hide Val;
    var t := b[p..];
    if p + 2 <= |b| && p + 2 + Val(b[p + 1]) <= |b| {
      assert t[2..2 + Val(t[1])] == b[p + 2..p + 2 + Val(b[p + 1])] && t[2 + Val(t[1])..] == b[p + 2 + Val(b[p + 1])..];
    }
  }

  lemma LearnStep(f: Facts, e: Kde.Element, es: seq<Kde.Element>)
    ensures Learn(f, [e] + es) == Learn(Copied(Note(f, e), e), es) && Learn(f, []) == f
  {
    hide Note, Copied;
    assert ([e] + es)[1..] == es;
  }

  lemma ByteOfLength(b: bv8)
    ensures Byte(Val(b)) == b
  {
    ByteVal(b);
  }

  /** Parses a beacon. */
  method ReadBeacon(frame: bytes, rssi: Signal, freq: nat, generation: Word, memory: bool) returns (n: Option<Network>)
    ensures n == if |frame| < 42 || !memory then None else Some(Seen(frame, rssi, freq, generation))
  {
    hide Val, Byte, Learn, Elements, Note;
    if |frame| < 42 || !memory {
      return None;
    }
    Kde.ByteValues();
    var f := NOTHING_KNOWN;
    var p := 36;
    ghost var all := Learn(NOTHING_KNOWN, Elements(frame[36..]));
    while p + 2 <= |frame|
      invariant p <= |frame|
      invariant all == Learn(f, Elements(frame[p..]))
    {
      ElementsStep(frame, p);
      var id, len := frame[p], Val(frame[p + 1]);
      if p + 2 + len > |frame| {
        break;
      }
      var body := frame[p + 2..p + 2 + len];
      LearnStep(f, Kde.Element(id, body), Elements(frame[p + 2 + len..]));
      f := NoteElement(f, id, body);
      if |f.ies| + 2 + len < 512 {
        f := f.(ies := f.ies + [id, frame[p + 1]] + body);
      }
      ByteOfLength(frame[p + 1]);
      p := p + 2 + len;
    }
    ElementsStep(frame, p);
    LearnStep(f, Kde.Element(0, []), []);
    assert f == all;
    var channel := ReadChannel(f.channel, freq);
    n := Some(Network(frame[16..22], f.(channel := channel), rssi, freq, generation));
  }

  method ReadChannel(known: bv8, freq: nat) returns (channel: bv8)
    ensures channel == if known == 0 then ChannelOf(freq) else known
  {
    channel := known;
    if channel == 0 && freq != 0 {
      if freq == 2484 {
        channel := 14;
      } else if 2412 <= freq && freq <= 2472 {
        channel := ((freq - 2407) / 5) as bv8;
      } else if 5000 <= freq && freq <= 5900 {
        channel := ((freq - 5000) / 5) as bv8;
      }
    }
  }
}
