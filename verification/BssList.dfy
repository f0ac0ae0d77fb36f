/** The list of networks as bytes: written by the kernel, read by the control program. */
module BssList {
  import opened Bytes

  /** A number of 32 bits, and a signed one of 16. */
  type Word = n: int | 0 <= n < 0x1_0000_0000
  type Signal = n: int | -0x8000 <= n < 0x8000

  /** One network as both sides see it. */
  datatype Entry = Entry(ssid: bytes, bssid: Address, rssi: Signal, channel: bv8, cipher: Word)

  function WordBytes(n: Word): (b: bytes)
    ensures |b| == 4
  {
    [Byte(n), Byte(n / 0x100), Byte(n / 0x1_0000), Byte(n / 0x100_0000)]
  }

  function WordOf(b0: bv8, b1: bv8, b2: bv8, b3: bv8): (n: Word)
  {
    hide Val;
    ByteVal(b0); ByteVal(b1); ByteVal(b2); ByteVal(b3);
    Val(b0) + 0x100 * Val(b1) + 0x1_0000 * Val(b2) + 0x100_0000 * Val(b3)
  }

  lemma WordRead(n: Word)
    ensures var b := WordBytes(n); WordOf(b[0], b[1], b[2], b[3]) == n
  {
    hide Val, Byte;
    ValByte(n);
    ValByte(n / 0x100);
    ValByte(n / 0x1_0000);
    ValByte(n / 0x100_0000);
    Digits(n);
  }

  lemma Digits(n: Word)
    ensures n % 0x100 + 0x100 * (n / 0x100 % 0x100) + 0x1_0000 * (n / 0x1_0000 % 0x100) + 0x100_0000 * (n / 0x100_0000 % 0x100) == n
  {
  }

  /** The two bytes of the signal, high byte first, of the number in two's complement. */
  function SignalBytes(r: Signal): (b: bytes)
    ensures |b| == 2
  {
    [Byte((r / 0x100) % 0x100), Byte(r % 0x100)]
  }

  function SignalOf(hi: bv8, lo: bv8): (r: Signal)
  {
    hide Val;
    ByteVal(hi); ByteVal(lo);
    var u := 0x100 * Val(hi) + Val(lo);
    if u >= 0x8000 then u - 0x1_0000 else u
  }

  /** Negative signals survive. */
  lemma SignalRead(r: Signal)
    ensures var b := SignalBytes(r); SignalOf(b[0], b[1]) == r
  {
    hide Val, Byte;
    ValByte((r / 0x100) % 0x100);
    ValByte(r % 0x100);
    if r >= 0 {
      assert r / 0x100 % 0x100 == r / 0x100;
    } else {
      assert r / 0x100 % 0x100 == r / 0x100 + 0x100;
    }
  }

  /** The longest SSID the name buffer of the program can hold with its closing zero. */
  const MAX_SSID := 32

  function Encode(e: Entry): (b: bytes)
    ensures |b| == 14 + |e.ssid|
  {
    hide Byte;
    [Byte(|e.ssid|)] + e.ssid + e.bssid + SignalBytes(e.rssi) + [e.channel] + WordBytes(e.cipher)
  }

  /** Where everything stands: one byte of length, the name, the address, the signal high byte first in two's complement,
      the channel, and the cipher low byte first. */
  lemma Layout(e: Entry)
    ensures var b := Encode(e); var n := |e.ssid|;
      && b[0] == Byte(n) && b[1..1 + n] == e.ssid && b[1 + n..7 + n] == e.bssid
      && Number(b[7 + n], b[8 + n]) == (if e.rssi < 0 then e.rssi + 0x1_0000 else e.rssi) && b[9 + n] == e.channel
      && Val(b[10 + n]) == e.cipher % 0x100 && Val(b[11 + n]) == e.cipher / 0x100 % 0x100
      && Val(b[12 + n]) == e.cipher / 0x1_0000 % 0x100 && Val(b[13 + n]) == e.cipher / 0x100_0000
  {
    hide Byte, Val, SignalBytes, WordBytes;
    var n := |e.ssid|;
    var b := Encode(e);
    assert b[1..1 + n] == e.ssid && b[1 + n..7 + n] == e.bssid;
    SignalStands(e.rssi);
    WordStands(e.cipher);
    var r, w := SignalBytes(e.rssi), WordBytes(e.cipher);
    assert b[7 + n] == r[0] && b[8 + n] == r[1] && b[10 + n] == w[0] && b[11 + n] == w[1] && b[12 + n] == w[2] && b[13 + n] == w[3];
  }

  lemma SignalStands(r: Signal)
    ensures var b := SignalBytes(r); Number(b[0], b[1]) == if r < 0 then r + 0x1_0000 else r
  {
    hide Byte, Val;
    SignalRead(r);
    ByteVal(SignalBytes(r)[0]);
    ByteVal(SignalBytes(r)[1]);
  }

  lemma WordStands(n: Word)
    ensures var b := WordBytes(n);
      && Val(b[0]) == n % 0x100 && Val(b[1]) == n / 0x100 % 0x100 && Val(b[2]) == n / 0x1_0000 % 0x100 && Val(b[3]) == n / 0x100_0000
  {
    hide Byte, Val;
    ValByte(n);
    ValByte(n / 0x100);
    ValByte(n / 0x1_0000);
    ValByte(n / 0x100_0000);
  }

  function EncodeAll(es: seq<Entry>): bytes {
    hide Encode;
    if |es| == 0 then [] else Encode(es[0]) + EncodeAll(es[1..])
  }

  /** How many networks from the front of the table fit in so many bytes. */
  function Fit(es: seq<Entry>, room: nat): (n: nat)
    ensures n <= |es|
  {
    if |es| == 0 || 14 + |es[0].ssid| > room then 0 else 1 + Fit(es[1..], room - 14 - |es[0].ssid|)
  }

  /** The bytes of the reply: total length first, then every network up to the first that does not fit. */
  function Reply(es: seq<Entry>, capacity: nat): bytes {
    hide EncodeAll, WordBytes;
    var max := if capacity > 4095 then 4095 else capacity;
    if max < 4 then []
    else
      var body := EncodeAll(es[..Fit(es, max - 4)]);
      FitSize(es, max - 4);
      WordBytes(4 + |body|) + body
  }

  lemma {:induction false} FitSize(es: seq<Entry>, room: nat)
    ensures |EncodeAll(es[..Fit(es, room)])| <= room
    ensures Fit(es, room) < |es| ==> |EncodeAll(es[..Fit(es, room) + 1])| > room
  {
    hide Encode;
    if |es| > 0 {
      var n := Fit(es, room);
      if 14 + |es[0].ssid| <= room {
        FitSize(es[1..], room - 14 - |es[0].ssid|);
        assert es[..n][1..] == es[1..][..n - 1];
        if n < |es| {
          assert es[..n + 1][1..] == es[1..][..n];
        }
      } else {
        assert es[..1][1..] == [];
        assert |EncodeAll(es[..1])| == 14 + |es[0].ssid|;
      }
    }
  }

  // The reading side.

  /** The first network of the bytes. */
  function Row(b: bytes): Entry
    requires |b| >= 1 && |b| >= 14 + Val(b[0])
  {
    hide Val, SignalOf, WordOf;
    var n := Val(b[0]);
    var t := b[1 + n..];
    Entry(b[1..1 + n], t[..6], SignalOf(t[6], t[7]), t[8], WordOf(t[9], t[10], t[11], t[12]))
  }

  /** Networks, up to where the bytes end or the next one is cut off. */
  function Rows(b: bytes): seq<Entry> {
    hide Val, Row;
    if |b| < 1 || |b| < 14 + Val(b[0]) then [] else [Row(b)] + Rows(b[14 + Val(b[0])..])
  }

  /** What the program reads from the bytes it was given: no more than the length in front says. */
  function Parse(b: bytes): seq<Entry> {
    hide WordOf;
    if |b| < 4 then []
    else
      var total := WordOf(b[0], b[1], b[2], b[3]);
      var end := if total > |b| then |b| else total;
      if end < 4 then [] else Rows(b[4..end])
  }

  lemma Fields(bssid: Address, signal: bytes, channel: bv8, cipher: bytes, rest: bytes)
    requires |signal| == 2 && |cipher| == 4
    ensures var t := bssid + signal + [channel] + cipher + rest;
      && t[..6] == bssid && t[6] == signal[0] && t[7] == signal[1] && t[8] == channel
      && t[9] == cipher[0] && t[10] == cipher[1] && t[11] == cipher[2] && t[12] == cipher[3] && t[13..] == rest
  {
  }

  lemma RowIs(b: bytes, ssid: bytes, t: bytes)
    requires |b| >= 1 && Val(b[0]) == |ssid| && |b| >= 14 + |ssid| && b[1..1 + |ssid|] == ssid && b[1 + |ssid|..] == t
    ensures Row(b) == Entry(ssid, t[..6], SignalOf(t[6], t[7]), t[8], WordOf(t[9], t[10], t[11], t[12]))
  {
    hide Val, SignalOf, WordOf;
  }

  lemma RowFirst(b: bytes)
    requires |b| >= 1 && |b| >= 14 + Val(b[0])
    ensures Rows(b) == [Row(b)] + Rows(b[14 + Val(b[0])..])
  {
    hide Val, Row;
  }

  lemma ReadBack(e: Entry, rest: bytes)
    requires |e.ssid| <= MAX_SSID
    ensures Rows(Encode(e) + rest) == [e] + Rows(rest)
  {
    hide Val, Byte, WordBytes, SignalBytes, WordOf, SignalOf, Encode, Row, Rows;
    var n := |e.ssid|;
    ValByte(n);
    var b := Encode(e) + rest;
    var t := e.bssid + SignalBytes(e.rssi) + [e.channel] + WordBytes(e.cipher) + rest;
    EncodeIs(e);
    Regroup(Byte(n), e.ssid, e.bssid, SignalBytes(e.rssi), [e.channel], WordBytes(e.cipher), rest);
    Parts(Byte(n), e.ssid, t);
    Fields(e.bssid, SignalBytes(e.rssi), e.channel, WordBytes(e.cipher), rest);
    RowIs(b, e.ssid, t);
    RowFirst(b);
    SignalRead(e.rssi);
    WordRead(e.cipher);
  }

  lemma EncodeIs(e: Entry)
    ensures Encode(e) == [Byte(|e.ssid|)] + e.ssid + e.bssid + SignalBytes(e.rssi) + [e.channel] + WordBytes(e.cipher)
  {
    hide Byte, WordBytes, SignalBytes;
  }

  lemma Regroup(n: bv8, p: bytes, q: bytes, r: bytes, s: bytes, t: bytes, u: bytes)
    ensures ([n] + p + q + r + s + t) + u == [n] + p + (q + r + s + t + u)
  {
  }

  lemma Parts(n: bv8, p: bytes, t: bytes)
    requires |t| >= 13
    ensures var b := [n] + p + t;
      b[0] == n && b[1..1 + |p|] == p && b[1 + |p|..] == t && b[14 + |p|..] == t[13..]
  {
  }

  ghost predicate Named(es: seq<Entry>) {
    forall e :: e in es ==> |e.ssid| <= MAX_SSID
  }

  lemma {:induction false} RowsOfAll(es: seq<Entry>)
    requires Named(es)
    ensures Rows(EncodeAll(es)) == es
  {
    hide Encode, Rows;
    if |es| == 0 {
      assert Rows([]) == [] by { RowsOfNothing(); }
    } else {
      RowsOfAll(es[1..]);
      ReadBack(es[0], EncodeAll(es[1..]));
      assert es == [es[0]] + es[1..];
    }
  }

  lemma RowsOfNothing()
    ensures Rows([]) == []
  {
  }

  /** For every table and every capacity: the program shows the longest prefix of the table that fits
      in the capacity, up to 4095 bytes with the length word, and shows every network exactly. */
  lemma ListRoundTrip(es: seq<Entry>, capacity: nat)
    requires Named(es)
    ensures var shown := Parse(Reply(es, capacity)); var max := if capacity > 4095 then 4095 else capacity;
      && shown <= es
      && |Reply(es, capacity)| <= max
      && (max >= 4 ==> 4 + |EncodeAll(shown)| <= max)
      && (max >= 4 && |shown| < |es| ==> 4 + |EncodeAll(es[..|shown| + 1])| > max)
      && (max < 4 ==> shown == [])
  {
    hide EncodeAll, Rows, WordBytes, WordOf, Fit;
    var max := if capacity > 4095 then 4095 else capacity;
    if max >= 4 {
      var n := Fit(es, max - 4);
      FitSize(es, max - 4);
      var body := EncodeAll(es[..n]);
      var r := Reply(es, capacity);
      WordRead(4 + |body|);
      var w := WordBytes(4 + |body|);
      assert r == w + body;
      assert r[0] == w[0] && r[1] == w[1] && r[2] == w[2] && r[3] == w[3];
      assert r[4..4 + |body|] == body;
      RowsOfAll(es[..n]);
      assert Parse(r) == es[..n];
    }
  }

  method Store(buf: array<bv8>, at: nat, b: bytes) returns (next: nat)
    requires at + |b| <= buf.Length
    modifies buf
    ensures next == at + |b|
    ensures buf[..at] == old(buf[..at]) && buf[at..next] == b && buf[next..] == old(buf[at + |b|..])
  {
    for i := 0 to |b|
      invariant buf[..at] == old(buf[..at]) && buf[at + |b|..] == old(buf[at + |b|..])
      invariant buf[at..at + i] == b[..i]
    {
      buf[at + i] := b[i];
    }
    next := at + |b|;
  }

  lemma Appended(b: bytes, at: nat, next: nat)
    requires 4 <= at <= next <= |b|
    ensures b[4..next] == b[4..at] + b[at..next]
    ensures b[4..at] == b[..at][4..]
  {
  }

  lemma {:induction false} EncodeAllSnoc(es: seq<Entry>, e: Entry)
    ensures EncodeAll(es + [e]) == EncodeAll(es) + Encode(e)
  {
    hide Encode;
    if |es| == 0 {
      assert (es + [e])[1..] == [];
    } else {
      EncodeAllSnoc(es[1..], e);
      assert (es + [e])[1..] == es[1..] + [e];
    }
  }

  /** The loop stops at the first network that does not fit: that is the longest prefix that does. */
  lemma {:induction false} FitIs(es: seq<Entry>, n: nat, room: nat)
    requires n <= |es| && |EncodeAll(es[..n])| <= room
    requires n < |es| ==> |EncodeAll(es[..n])| + 14 + |es[n].ssid| > room
    ensures Fit(es, room) == n
  {
    hide Encode;
    if n == 0 {
      assert es[..n] == [];
      assert EncodeAll([]) == [];
    } else {
      var rest := es[1..];
      assert es[..n][1..] == rest[..n - 1] && es[..n][0] == es[0];
      assert |EncodeAll(es[..n])| == 14 + |es[0].ssid| + |EncodeAll(rest[..n - 1])|;
      FitIs(rest, n - 1, room - 14 - |es[0].ssid|);
    }
  }

  /** Writes the reply into the caller's buffer, network by network. */
  method CmdGetBssList(table: seq<Entry>, buf: array<bv8>, capacity: nat) returns (len: nat)
    requires capacity <= buf.Length
    modifies buf
    ensures len <= capacity && buf[..len] == Reply(table, capacity)
  {
    hide Encode, Fit, WordBytes;
    var max := capacity;
    if max > 4095 {
      max := 4095;
    }
    if max < 4 {
      return 0;
    }
    var written := 4;
    var i := 0;
    while i < |table|
      invariant i <= |table| && 4 <= written <= max
      invariant buf[4..written] == EncodeAll(table[..i])
    {
      if written + 14 + |table[i].ssid| > max {
        break;
      }
      ghost var at := written;
      written := Store(buf, written, Encode(table[i]));
      Appended(buf[..], at, written);
      assert table[..i + 1] == table[..i] + [table[i]];
      EncodeAllSnoc(table[..i], table[i]);
      i := i + 1;
    }
    FitIs(table, i, max - 4);
    ghost var tail := buf[4..];
    assert tail[..written - 4] == buf[4..written];
    var _ := Store(buf, 0, WordBytes(written));
    assert buf[..written] == buf[..4] + tail[..written - 4];
    len := written;
  }

  /** Reads the network at the cursor, field by field. */
  method ReadRow(buf: bytes, at: nat, end: nat) returns (e: Entry)
    requires at < end <= |buf| && at + 14 + Val(buf[at]) <= end
    ensures |buf[at..end]| >= 14 + Val(buf[at..end][0]) && e == Row(buf[at..end])
  {
    hide Val, SignalOf, WordOf;
    ghost var b := buf[at..end];
    var n := Val(buf[at]);
    ghost var t := b[1 + n..];
    var p := at + 1;
    var ssid := buf[p..p + n];
    assert ssid == b[1..1 + n];
    p := p + n;
    assert forall k :: 0 <= k < 13 ==> buf[p + k] == t[k];
    var bssid: Address := buf[p..p + 6];
    assert bssid == t[..6];
    p := p + 6;
    var rssi := SignalOf(buf[p], buf[p + 1]);
    p := p + 2;
    var channel := buf[p];
    p := p + 1;
    var cipher := WordOf(buf[p], buf[p + 1], buf[p + 2], buf[p + 3]);
    e := Entry(ssid, bssid, rssi, channel, cipher);
  }

  /** The cursor behind the length word, and the end it gives, no further than the bytes that came. */
  method Bounds(buf: bytes, len: nat) returns (p: nat, end: nat)
    requires |buf| == 4095 && len <= 4095
    ensures end <= len && Parse(buf[..len]) == if p <= end then Rows(buf[p..end]) else []
  {
    hide WordOf, Rows;
    p, end := 0, 0;
    if len >= 4 {
      end := WordOf(buf[0], buf[1], buf[2], buf[3]);
      p := 4;
      if end > len {
        end := len;
      }
    }
    if p <= end {
      RowsOfNothing();
      assert p == 4 ==> buf[..len][4..end] == buf[4..end];
      assert p == 0 ==> buf[p..end] == [];
    }
  }

  /** The program's loop over the bytes it got: a cursor that never passes the end. */
  method CmdList(buf: bytes, len: nat) returns (rows: seq<Entry>)
    requires |buf| == 4095 && len <= 4095
    ensures rows == Parse(buf[..len])
  {
    hide Val, SignalOf, WordOf, Row, Rows, Parse;
    RowsOfNothing();
    var p, end := Bounds(buf, len);
    rows := [];
    ghost var all := Parse(buf[..len]);
    while p + 1 <= end
      invariant end <= len
      invariant all == rows + if p <= end then Rows(buf[p..end]) else []
      decreases end - p
    {
      var n := Val(buf[p]);
      RowsStep(buf, p, end);
      if p + 1 + n + 6 + 2 + 1 + 4 > end {
        return;
      }
      var e := ReadRow(buf, p, end);
      rows := rows + [e];
      p := p + 14 + n;
    }
    if p == end {
      assert buf[p..end] == [];
    }
  }

  lemma RowsStep(buf: bytes, p: nat, end: nat)
    requires p < end <= |buf|
    ensures var b, n := buf[p..end], Val(buf[p]);
      && b[0] == buf[p]
      && Rows(b) == if p + 14 + n > end then [] else [Row(b)] + Rows(buf[p + 14 + n..end])
  {
    hide Val, Row;
    var b, n := buf[p..end], Val(buf[p]);
    if p + 14 + n <= end {
      assert b[14 + n..] == buf[p + 14 + n..end];
    }
  }
}
