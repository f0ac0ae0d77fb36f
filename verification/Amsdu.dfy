/** Ethernet frames behind LLC/SNAP headers, and the A-MSDU splitter. */
module Amsdu {
  import opened Bytes

  type EtherType = s: bytes | |s| == 2 witness Zeros(2)

  datatype Ethernet = Ethernet(da: Address, sa: Address, etherType: EtherType, payload: bytes)

  const SNAP: bytes := [0xAA, 0xAA, 0x03, 0x00, 0x00, 0x00]

  /** The test the receiver makes: the first three bytes only. */
  predicate IsSnap(b: bytes)
    requires |b| >= 3
  {
    b[0] == 0xAA && b[1] == 0xAA && b[2] == 0x03
  }

  function Aligned(n: nat): (m: nat)
    ensures n <= m < n + 4 && m % 4 == 0
  {
    (n + 3) / 4 * 4
  }

  /** A subframe at the front of the data: header, length of at least 8, that many bytes. */
  predicate Subframe(b: bytes) {
    |b| >= 14 && Number(b[12], b[13]) >= 8 && 14 + Number(b[12], b[13]) <= |b|
  }

  function Size(b: bytes): (n: nat)
    requires Subframe(b)
    ensures 22 <= n <= |b|
  {
    14 + Number(b[12], b[13])
  }

  /** The frame in one subframe, if it has an LLC/SNAP header. */
  function Msdu(sf: bytes): seq<Ethernet>
    requires |sf| >= 22
  {
    if IsSnap(sf[14..]) then [Ethernet(sf[..6], sf[6..12], sf[20..22], sf[22..])] else []
  }

  function Rest(b: bytes): bytes
    requires Subframe(b)
  {
    if Aligned(Size(b)) <= |b| then b[Aligned(Size(b))..] else []
  }

  /** What the splitter delivers. */
  function Split(b: bytes): seq<Ethernet>
    decreases |b|
  {
    if !Subframe(b) then [] else Msdu(b[..Size(b)]) + Split(Rest(b))
  }

  /** The start of every subframe the splitter visits in data from pos on. */
  function Starts(data: bytes, pos: nat): seq<nat>
    decreases |data| - pos
  {
    if pos > |data| || !Subframe(data[pos..]) then []
    else [pos] + Starts(data, pos + Aligned(Size(data[pos..])))
  }

  /** On any bytes: the subframes lie inside the data, one behind the other without overlap. */
  lemma {:induction false} Disjoint(data: bytes, pos: nat)
    ensures forall i :: 0 <= i < |Starts(data, pos)| ==>
      pos <= Starts(data, pos)[i] <= |data| && Subframe(data[Starts(data, pos)[i]..])
    ensures forall i, j :: 0 <= i < j < |Starts(data, pos)| ==>
      Starts(data, pos)[i] + Size(data[Starts(data, pos)[i]..]) <= Starts(data, pos)[j]
    decreases |data| - pos
  {
    hide Subframe, Size, Aligned;
    if pos <= |data| && Subframe(data[pos..]) {
      Disjoint(data, pos + Aligned(Size(data[pos..])));
    }
  }

  /** The frames in the subframes at these places. */
  function MsdusAt(data: bytes, ps: seq<nat>): seq<Ethernet>
    requires forall i :: 0 <= i < |ps| ==> ps[i] <= |data| && Subframe(data[ps[i]..])
  {
    hide Subframe, Size, Msdu;
    if |ps| == 0 then [] else Msdu(data[ps[0]..][..Size(data[ps[0]..])]) + MsdusAt(data, ps[1..])
  }

  /** On any bytes: what is delivered is what stands in these subframes, each once and in order. */
  lemma {:induction false} DeliveredPieces(data: bytes, pos: nat)
    requires pos <= |data|
    ensures forall i :: 0 <= i < |Starts(data, pos)| ==> Starts(data, pos)[i] <= |data| && Subframe(data[Starts(data, pos)[i]..])
    ensures Split(data[pos..]) == MsdusAt(data, Starts(data, pos))
    decreases |data| - pos
  {
    hide Subframe, Size, Msdu, Aligned;
    Disjoint(data, pos);
    if Subframe(data[pos..]) {
      var next := pos + Aligned(Size(data[pos..]));
      assert Starts(data, pos)[1..] == Starts(data, next);
      if next <= |data| {
        DeliveredPieces(data, next);
        assert Rest(data[pos..]) == data[next..];
      } else {
        TooShort([]);
      }
    }
  }

  // The A-MSDU of a list of frames.

  predicate Fits(e: Ethernet) {
    |e.payload| + 8 < 0x1_0000
  }

  function Encode(e: Ethernet): bytes {
    hide Byte;
    e.da + e.sa + [Byte((|e.payload| + 8) / 256), Byte(|e.payload| + 8)] + SNAP + e.etherType + e.payload
  }

  /** Every subframe but the last is padded to a multiple of four bytes. */
  function EncodeAll(es: seq<Ethernet>): bytes {
    hide Encode;
    if |es| == 0 then []
    else if |es| == 1 then Encode(es[0])
    else Encode(es[0]) + Zeros(Aligned(|Encode(es[0])|) - |Encode(es[0])|) + EncodeAll(es[1..])
  }

  lemma EncodeParts(e: Ethernet)
    ensures |Encode(e)| == 22 + |e.payload|
    ensures Encode(e)[..6] == e.da && Encode(e)[6..12] == e.sa
    ensures Encode(e)[12] == Byte((|e.payload| + 8) / 256) && Encode(e)[13] == Byte(|e.payload| + 8)
  {
    hide Byte;
    var rest := [Byte((|e.payload| + 8) / 256), Byte(|e.payload| + 8)] + SNAP + e.etherType + e.payload;
    assert Encode(e) == e.da + (e.sa + rest);
    assert (e.sa + rest)[..6] == e.sa;
  }

  lemma EncodeBody(e: Ethernet)
    ensures |Encode(e)| >= 22 && IsSnap(Encode(e)[14..]) && Encode(e)[20..22] == e.etherType && Encode(e)[22..] == e.payload
  {
    hide Byte;
    var front := e.da + e.sa + [Byte((|e.payload| + 8) / 256), Byte(|e.payload| + 8)] + SNAP;
    var back := e.etherType + e.payload;
    assert Encode(e) == front + back && |front| == 20;
    assert Encode(e)[14..][0] == SNAP[0] && Encode(e)[14..][1] == SNAP[1] && Encode(e)[14..][2] == SNAP[2];
    assert Encode(e)[20..22] == back[..2] && Encode(e)[22..] == back[2..];
  }

  lemma ReadBack(e: Ethernet, tail: bytes)
    requires Fits(e)
    ensures Subframe(Encode(e) + tail) && Size(Encode(e) + tail) == |Encode(e)| >= 22
    ensures (Encode(e) + tail)[..|Encode(e)|] == Encode(e) && Msdu(Encode(e)) == [e]
  {
    EncodeParts(e);
    EncodeBody(e);
    NumberBytes(|e.payload| + 8);
    hide Byte, Encode, Number, IsSnap;
    var x := Encode(e);
    var b := x + tail;
    assert b[12] == x[12] && b[13] == x[13];
  }

  /** Splitting the A-MSDU of any list of frames delivers exactly that list, in order. */
  lemma {:induction false} AmsduRoundTrip(es: seq<Ethernet>)
    requires forall e :: e in es ==> Fits(e)
    ensures Split(EncodeAll(es)) == es
  {
    hide Encode, Msdu, Fits, Subframe, Size, Aligned;
    if |es| == 0 {
      TooShort([]);
    } else {
      var x := Encode(es[0]);
      var pad := Zeros(Aligned(|x|) - |x|);
      if |es| == 1 {
        ReadBack(es[0], []);
        assert EncodeAll(es) == x + [];
        TooShort(Rest(x + []));
      } else {
        AmsduRoundTrip(es[1..]);
        ReadBack(es[0], pad + EncodeAll(es[1..]));
        assert EncodeAll(es) == x + (pad + EncodeAll(es[1..]));
        assert Rest(EncodeAll(es)) == EncodeAll(es[1..]);
      }
      assert es == [es[0]] + es[1..];
    }
  }

  lemma TooShort(b: bytes)
    requires |b| < 14
    ensures Split(b) == []
  {
  }

  /** The splitter's loop. */
  method DeAmsdu(data: bytes) returns (delivered: seq<Ethernet>)
    ensures delivered == Split(data)
  {
    hide Number, Split, Msdu, IsSnap;
    delivered := [];
    var pos := 0;
    ghost var rest := data;
    while pos + 14 <= |data|
      invariant rest == if pos <= |data| then data[pos..] else []
      invariant delivered + Split(rest) == Split(data)
      decreases |data| - pos
    {
      var sublen := Number(data[pos + 12], data[pos + 13]);
      if sublen < 8 || pos + 14 + sublen > |data| {
        NoSubframe(rest);
        return;
      }
      SplitStep(rest);
      ghost var before := delivered;
      var sf := data[pos..pos + 14 + sublen];
      assert sf == rest[..14 + sublen];
      delivered := delivered + Msdu(sf);
      Regroup(before, Msdu(sf), Split(Rest(rest)));
      pos := pos + (14 + sublen + 3) / 4 * 4;
      rest := Rest(rest);
    }
    NoSubframe(rest);
  }

  lemma SplitStep(b: bytes)
    requires Subframe(b)
    ensures Split(b) == Msdu(b[..Size(b)]) + Split(Rest(b))
  {
    hide Msdu, Size, Rest;
  }

  lemma NoSubframe(b: bytes)
    requires !Subframe(b)
    ensures Split(b) == []
  {
  }

  lemma Regroup(p: seq<Ethernet>, q: seq<Ethernet>, r: seq<Ethernet>)
    ensures p + (q + r) == (p + q) + r
  {
  }
}
