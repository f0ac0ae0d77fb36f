/** Key data elements and the group key they carry, in the layout of section 12.7.2 of IEEE Std 802.11-2016. */
module Kde {
  import opened Bytes
  import opened Options
  import opened AesSpec
  import KeyWrap

  datatype Element = Element(id: bv8, body: bytes)

  const GTK_OUI: bytes := [0x00, 0x0f, 0xac, 0x01]

  predicate IsGtk(e: Element) {
    e.id == 0xdd && |e.body| >= 6 && e.body[..4] == GTK_OUI
  }

  function Encode(e: Element): bytes
    requires |e.body| < 256
  {
    [e.id, Byte(|e.body|)] + e.body
  }

  function EncodeAll(es: seq<Element>): bytes
    requires forall e :: e in es ==> |e.body| < 256
  {
    if |es| == 0 then [] else Encode(es[0]) + EncodeAll(es[1..])
  }

  /** The element that carries the group key: key id, a reserved byte, the key. */
  function GtkElement(keyId: bv8, key: bytes): Element {
    Element(0xdd, GTK_OUI + [keyId, 0] + key)
  }

  lemma ByteValues()
    ensures forall x: bv8 :: Val(x) < 256
  {
    forall x: bv8
      ensures Val(x) < 256
    {
      ByteVal(x);
    }
  }

  /** The first group key element of a byte string read as a chain of elements. */
  function FirstGtk(b: bytes): (r: Option<Element>)
    ensures r.Some? ==> IsGtk(r.value) && |r.value.body| < 256
  {
    hide IsGtk;
    ByteValues();
    if |b| < 2 || |b| < 2 + Val(b[1]) then None
    else
      var n := 2 + Val(b[1]);
      var e := Element(b[0], b[2..n]);
      if IsGtk(e) then Some(e) else FirstGtk(b[n..])
  }

  datatype Gtk = Gtk(key: bytes, index: bv8)

  /** What the walk yields: the key of the first group key element, if it has at most 32 bytes. */
  function GtkOf(b: bytes): Option<Gtk> {
    match FirstGtk(b)
    case None => None
    case Some(e) => if |e.body| - 6 > 32 then None else Some(Gtk(e.body[6..], e.body[4] & 0x3))
  }

  ghost predicate Chain(es: seq<Element>) {
    forall e :: e in es ==> |e.body| < 256 && !IsGtk(e)
  }

  lemma {:induction false} FirstGtkEncoded(es: seq<Element>, g: Element, tail: bytes)
    requires Chain(es) && IsGtk(g) && |g.body| < 256
    ensures FirstGtk(EncodeAll(es) + Encode(g) + tail) == Some(g)
  {
    hide Val, Byte, IsGtk, Encode;
    if |es| == 0 {
      ReadElement(g, tail);
      assert EncodeAll(es) + Encode(g) + tail == Encode(g) + tail;
    } else {
      var rest := EncodeAll(es[1..]) + Encode(g) + tail;
      FirstGtkEncoded(es[1..], g, tail);
      Regroup(Encode(es[0]), EncodeAll(es[1..]), Encode(g), tail);
      assert es[0] in es;
      ReadElement(es[0], rest);
    }
  }

  lemma ReadElement(e: Element, rest: bytes)
    requires |e.body| < 256
    ensures var b := Encode(e) + rest; var n := 2 + |e.body|;
            Val(b[1]) == |e.body| && |b| >= n && Element(b[0], b[2..n]) == e && b[n..] == rest
  {
    hide Val, Byte;
    ValByte(|e.body|);
  }

  /** The walk finds a group key element only behind a chain of other elements. */
  lemma {:induction false} FirstGtkFound(b: bytes) returns (es: seq<Element>, tail: bytes)
    requires FirstGtk(b).Some?
    ensures Chain(es)
    ensures b == EncodeAll(es) + Encode(FirstGtk(b).value) + tail
  {
    hide Byte, Val, IsGtk;
    ByteValues();
    var n := 2 + Val(b[1]);
    var e := Element(b[0], b[2..n]);
    SplitElement(b);
    if IsGtk(e) {
      es, tail := [], b[n..];
    } else {
      var es1, tail1 := FirstGtkFound(b[n..]);
      es, tail := [e] + es1, tail1;
      assert es[1..] == es1;
      Regroup(Encode(e), EncodeAll(es1), Encode(FirstGtk(b).value), tail);
    }
  }

  lemma Regroup(p: bytes, q: bytes, r: bytes, s: bytes)
    ensures p + (q + r + s) == p + q + r + s
  {
  }

  lemma SplitElement(b: bytes)
    requires |b| >= 2 && |b| >= 2 + Val(b[1])
    ensures var n := 2 + Val(b[1]); n < 258 && b == Encode(Element(b[0], b[2..n])) + b[n..]
  {
    hide Val, Byte;
    ByteVal(b[1]);
    var n := 2 + Val(b[1]);
    assert b == [b[0], b[1]] + b[2..n] + b[n..];
    assert Byte(|b[2..n]|) == b[1];
  }

  lemma WalkStep(data: bytes, pos: nat)
    requires pos <= |data|
    ensures FirstGtk(data[pos..])
         == if pos + 2 > |data| || pos + 2 + Val(data[pos + 1]) > |data| then None
            else
              var next := pos + 2 + Val(data[pos + 1]);
              var e := Element(data[pos], data[pos + 2..next]);
              if IsGtk(e) then Some(e) else FirstGtk(data[next..])
  {
    hide Val, IsGtk;
    var b := data[pos..];
    if pos + 2 <= |data| && pos + 2 + Val(data[pos + 1]) <= |data| {
      var next := pos + 2 + Val(data[pos + 1]);
      assert b[2..2 + Val(b[1])] == data[pos + 2..next] && b[2 + Val(b[1])..] == data[next..];
    }
  }

  /** The element walk, one element at a time from position 0. */
  method ExtractGtk(data: bytes) returns (result: Option<Gtk>)
    requires |data| < 0x1_0000
    ensures result == GtkOf(data)
  {
    hide Val, FirstGtk;
    ByteValues();
    var pos := 0;
    while pos + 2 <= |data|
      invariant pos <= |data|
      invariant FirstGtk(data) == FirstGtk(data[pos..])
    {
      WalkStep(data, pos);
      var id, len := data[pos], Val(data[pos + 1]);
      if pos + 2 + len > |data| {
        return None;
      }
      var body := data[pos + 2..pos + 2 + len];
      if id == 0xdd && len >= 6 && body[..4] == GTK_OUI {
        var keyLen := len - 6;
        if keyLen > 32 {
          return None;
        }
        assert body[6..6 + keyLen] == body[6..];
        return Some(Gtk(body[6..6 + keyLen], body[4] & 0x3));
      }
      pos := pos + 2 + len;
    }
    WalkStep(data, pos);
    return None;
  }

  lemma GtkElementIsGtk(keyId: bv8, key: bytes)
    ensures var e := GtkElement(keyId, key); IsGtk(e) && |e.body| == 6 + |key| && e.body[6..] == key && e.body[4] == keyId
  {
  }

  /** Key data with one group key element behind other elements yields that key and its two-bit
      index when the key has at most 32 bytes, and nothing when it is longer. */
  lemma GtkDelivered(es: seq<Element>, keyId: bv8, key: bytes, padding: bytes)
    requires Chain(es) && |key| < 250
    ensures GtkOf(EncodeAll(es) + Encode(GtkElement(keyId, key)) + padding)
         == if |key| <= 32 then Some(Gtk(key, keyId & 0x3)) else None
  {
    hide FirstGtk, IsGtk, EncodeAll, Encode, GtkElement;
    GtkElementIsGtk(keyId, key);
    FirstGtkEncoded(es, GtkElement(keyId, key), padding);
  }

  /** The key handed to the station is the one in the first group key element of the data. */
  lemma GtkComesFromFirstElement(b: bytes) returns (es: seq<Element>, e: Element, tail: bytes)
    requires GtkOf(b).Some?
    ensures Chain(es) && IsGtk(e) && |e.body| <= 38 && b == EncodeAll(es) + Encode(e) + tail
    ensures GtkOf(b).value == Gtk(e.body[6..], e.body[4] & 0x3)
  {
    hide FirstGtk, IsGtk, EncodeAll, Encode;
    e := FirstGtk(b).value;
    es, tail := FirstGtkFound(b);
  }

  /** End to end: the group key an access point wraps is the group key the station installs. */
  lemma WrappedGtkDelivered(kek: Block, es: seq<Element>, keyId: bv8, key: bytes, padding: bytes)
    requires Chain(es) && |key| <= 32
    requires var plain := EncodeAll(es) + Encode(GtkElement(keyId, key)) + padding; |plain| <= 256 && |plain| % 8 == 0
    ensures var plain := EncodeAll(es) + Encode(GtkElement(keyId, key)) + padding;
            && KeyWrap.UnwrapResult(kek, KeyWrap.Wrap(kek, plain)) == Some(plain)
            && GtkOf(plain) == Some(Gtk(key, keyId & 0x3))
  {
    hide KeyWrap.UnwrapResult, KeyWrap.Wrap;
    GtkDelivered(es, keyId, key, padding);
    GtkElementIsGtk(keyId, key);
    var plain := EncodeAll(es) + Encode(GtkElement(keyId, key)) + padding;
    KeyWrap.UnwrapInvertsWrap(kek, KeyWrap.Wrap(kek, plain), plain);
  }
}
