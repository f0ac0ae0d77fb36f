/** EAPOL-Key frames of the 4-way handshake, section 12.7.2 of IEEE Std 802.11-2016. */
module Eapol {
  import opened Bytes
  import opened KeyDerivation
  import opened CipherSuites

  type Mic = s: bytes | |s| == 16 witness Zeros(16)
  type Counter = s: bytes | |s| == 8 witness Zeros(8)
  type Rest = s: bytes | |s| == 32 witness Zeros(32)

  /** The fields of a frame; rest is the key IV, the receive sequence counter and the reserved bytes. */
  datatype KeyFrame = KeyFrame(version: bv8, info: bv16, counter: Counter, nonce: Nonce, rest: Rest, data: bytes)

  function BigEndian2(n: nat): bytes {
    [Byte(n / 256), Byte(n)]
  }

  function InfoBytes(info: bv16): bytes {
    [(info >> 8) as bv8, (info & 0xff) as bv8]
  }

  function Front(f: KeyFrame): (b: bytes)
    ensures |b| == 81
  {
    hide Byte;
    [f.version, 3] + BigEndian2(95 + |f.data|) + [2] + InfoBytes(f.info) + [0, 16] + f.counter + f.nonce + f.rest
  }

  function Back(f: KeyFrame): (b: bytes)
    ensures |b| == 2 + |f.data|
  {
    hide Byte;
    BigEndian2(|f.data|) + f.data
  }

  function Encode(f: KeyFrame, mic: Mic): (b: bytes)
    ensures |b| == 99 + |f.data|
  {
    hide Front, Back;
    Front(f) + mic + Back(f)
  }

  /** The MIC: HMAC of the frame with its MIC field zero, cut to 16 bytes. */
  function MicOf(kck: bytes, eapol: bytes): Mic
    requires |eapol| >= 99
  {
    hide Hmac;
    Hmac(kck, eapol[..81] + Zeros(16) + eapol[97..])[..16]
  }

  function Signed(f: KeyFrame, kck: bytes): bytes {
    hide Encode, MicOf;
    Encode(f, MicOf(kck, Encode(f, Zeros(16))))
  }

  predicate MicOk(kck: bytes, eapol: bytes) {
    hide MicOf;
    |eapol| >= 99 && eapol[81..97] == MicOf(kck, eapol)
  }

  lemma MicField(f: KeyFrame, mic: Mic)
    ensures var b := Encode(f, mic); b[81..97] == mic && b[..81] == Front(f) && b[97..] == Back(f)
  {
    hide Front, Back;
  }

  /** A frame signed under a key passes the check under that key. */
  lemma SignedPasses(f: KeyFrame, kck: bytes)
    ensures MicOk(kck, Signed(f, kck))
  {
    hide Encode, Hmac;
    var zero := Encode(f, Zeros(16));
    var mic := MicOf(kck, zero);
    MicField(f, Zeros(16));
    MicField(f, mic);
  }

  /** Of frames that differ in the MIC only, at most one passes; it has the first 16 bytes of the HMAC there. */
  lemma MicUnique(kck: bytes, a: bytes, b: bytes)
    requires |a| == |b| >= 99 && a[..81] == b[..81] && a[97..] == b[97..] && MicOk(kck, a)
    ensures a[81..97] == Hmac(kck, a[..81] + Zeros(16) + a[97..])[..16]
    ensures MicOk(kck, b) <==> a == b
  {
    hide Hmac;
    assert a == a[..81] + a[81..97] + a[97..] && b == b[..81] + b[81..97] + b[97..];
  }

  // Reading the fields where the receiver reads them.

  function Info(eapol: bytes): bv16
    requires |eapol| >= 99
  {
    ((eapol[5] as bv16) << 8) | (eapol[6] as bv16)
  }

  lemma NumberRead(n: nat)
    requires n < 0x1_0000
    ensures Number(BigEndian2(n)[0], BigEndian2(n)[1]) == n
  {
    hide Number, Byte;
    NumberBytes(n);
  }

  lemma InfoRead(info: bv16)
    ensures ((InfoBytes(info)[0] as bv16) << 8) | (InfoBytes(info)[1] as bv16) == info
  {
  }

  lemma FrontFields(f: KeyFrame)
    requires 95 + |f.data| < 0x1_0000
    ensures var b := Front(f);
      && b[1] == 3 && Number(b[2], b[3]) == 95 + |f.data|
      && ((b[5] as bv16) << 8) | (b[6] as bv16) == f.info
      && b[9..17] == f.counter && b[17..49] == f.nonce
  {
    hide Byte, Number, BigEndian2, InfoBytes;
    NumberRead(95 + |f.data|);
    InfoRead(f.info);
    var n, i := BigEndian2(95 + |f.data|), InfoBytes(f.info);
    assert |n| == 2 by { TwoBytes(95 + |f.data|, f.info); }
    assert |i| == 2 by { TwoBytes(95 + |f.data|, f.info); }
    var head := [f.version, 3] + n + [2] + i + [0, 16];
    assert head[2] == n[0] && head[3] == n[1] && head[5] == i[0] && head[6] == i[1];
    assert Front(f) == head + f.counter + f.nonce + f.rest;
    FourParts(head, f.counter, f.nonce, f.rest);
  }

  lemma TwoBytes(n: nat, info: bv16)
    ensures |BigEndian2(n)| == 2 && |InfoBytes(info)| == 2
  {
  }

  lemma FourParts(p: bytes, q: bytes, r: bytes, s: bytes)
    ensures var b := p + q + r + s;
      && b[|p|..|p| + |q|] == q && b[|p| + |q|..|p| + |q| + |r|] == r
      && forall i :: 0 <= i < |p| ==> b[i] == p[i]
  {
  }

  /** The receiver reads back every field of a frame. */
  lemma FieldsRead(f: KeyFrame, mic: Mic)
    requires 95 + |f.data| < 0x1_0000
    ensures var b := Encode(f, mic);
      && |b| == 99 + |f.data| && b[1] == 3 && Number(b[2], b[3]) == 95 + |f.data|
      && Info(b) == f.info && b[9..17] == f.counter && b[17..49] == f.nonce
      && Number(b[97], b[98]) == |f.data| && b[99..] == f.data
  {
    hide Front, Back, Encode, Number, Byte, BigEndian2;
    FrontFields(f);
    BackFields(f);
    MicField(f, mic);
    Spread(Encode(f, mic), Front(f), Back(f));
  }

  lemma BackFields(f: KeyFrame)
    requires 95 + |f.data| < 0x1_0000
    ensures Number(Back(f)[0], Back(f)[1]) == |f.data| && Back(f)[2..] == f.data
  {
    hide Number, Byte, BigEndian2;
    NumberRead(|f.data|);
    TwoBytes(|f.data|, f.info);
  }

  lemma Spread(b: bytes, p: bytes, q: bytes)
    requires |p| == 81 && |q| >= 2 && |b| == 97 + |q| && b[..81] == p && b[97..] == q
    ensures forall i :: 0 <= i < 81 ==> b[i] == p[i]
    ensures b[9..17] == p[9..17] && b[17..49] == p[17..49]
    ensures b[97] == q[0] && b[98] == q[1] && b[99..] == q[2..]
  {
    assert b[99..] == b[97..][2..];
  }

  // The station's replies.

  /** The RSN element of the cipher choice the driver implements. */
  function RsnElement(tkipGroup: bool): (b: bytes)
    ensures |b| == 22
  {
    [48, 20, 1, 0] + (if tkipGroup then TKIP_SUITE else CCMP_SUITE) + [1, 0] + CCMP_SUITE + [1, 0] + PSK_SUITE + [0, 0]
  }

  /** Message 2 carries the RSN element; message 4 is empty and has the Secure bit. */
  function Reply(step: nat, counter: Counter, snonce: Nonce, tkipGroup: bool): KeyFrame {
    KeyFrame(2, if step == 4 then 0x030a else 0x010a, counter, snonce, Zeros(32), if step == 2 then RsnElement(tkipGroup) else [])
  }

  method Append(dst: array<bv8>, at: nat, src: bytes, ghost prefix: bytes) returns (next: nat)
    requires at + |src| <= dst.Length && dst[..at] == prefix
    modifies dst
    ensures next == at + |src| && dst[..next] == prefix + src
    ensures dst[next..] == old(dst[at + |src|..])
  {
    CopyBytes(src, dst, at);
    next := at + |src|;
    assert dst[..next] == dst[..at] + dst[at..next];
  }

  method LayOutFront(f: KeyFrame, eapol: array<bv8>)
    requires 81 <= eapol.Length
    modifies eapol
    ensures eapol[..81] == Front(f)
  {
    hide BigEndian2, InfoBytes, Byte;
    TwoBytes(95 + |f.data|, f.info);
    var head := [f.version, 3] + BigEndian2(95 + |f.data|) + [2] + InfoBytes(f.info) + [0, 16];
    var at := Append(eapol, 0, head, []);
    at := Append(eapol, at, f.counter, head);
    at := Append(eapol, at, f.nonce, head + f.counter);
    at := Append(eapol, at, f.rest, head + f.counter + f.nonce);
    assert Front(f) == head + f.counter + f.nonce + f.rest;
  }

  /** Lays out the frame with a zero MIC field. */
  method LayOut(f: KeyFrame, eapol: array<bv8>) returns (total: nat)
    requires 99 + |f.data| <= eapol.Length
    modifies eapol
    ensures total == 99 + |f.data| && eapol[..total] == Encode(f, Zeros(16))
  {
    hide BigEndian2, Front;
    LayOutFront(f, eapol);
    TwoBytes(|f.data|, f.info);
    var at := Append(eapol, 81, Zeros(16), Front(f));
    at := Append(eapol, at, Back(f), Front(f) + Zeros(16));
    total := at;
  }

  /** Builds a reply in place: lay it out, take the HMAC of it, put its first 16 bytes in the MIC field. */
  method BuildReply(step: nat, counter: Counter, snonce: Nonce, tkipGroup: bool, kck: bytes) returns (eapol: bytes)
    requires |kck| == 16
    ensures eapol == Signed(Reply(step, counter, snonce, tkipGroup), kck)
  {
    hide Hmac, RsnElement, Front, Back;
    var f := Reply(step, counter, snonce, tkipGroup);
    var frame := new bv8[498];
    var total := LayOut(f, frame);
    ghost var zero := frame[..total];
    MicField(f, Zeros(16));
    assert zero == zero[..81] + Zeros(16) + zero[97..];
    ghost var tail := frame[97..];
    assert zero[97..] == tail[..total - 97];
    var mic := new bv8[20];
    HmacSha1(kck, frame, total, mic);
    CopyBytes(mic[..16], frame, 81);
    eapol := frame[..total];
    assert MicOf(kck, zero) == mic[..16];
    assert eapol[97..] == frame[97..][..total - 97];
    assert eapol[..81] == Front(f) && eapol[81..97] == mic[..16] && eapol[97..] == Back(f);
    assert eapol == eapol[..81] + eapol[81..97] + eapol[97..];
  }

  /** Checks a received frame: the MIC field is taken out of a copy, zeroed there and compared. */
  method EapolMicOk(kck: bytes, eapol: bytes, memory: bool) returns (ok: bool)
    requires |kck| == 16 && |eapol| + 63 < 0x1_0000_0000
    ensures ok <==> memory && MicOk(kck, eapol)
  {
    hide Hmac;
    if |eapol| < 99 || !memory {
      return false;
    }
    var tmp := new bv8[|eapol|](i requires 0 <= i < |eapol| => eapol[i]);
    assert tmp[..] == eapol;
    var rxMic := tmp[81..97];
    CopyBytes(Zeros(16), tmp, 81);
    assert tmp[..|eapol|] == eapol[..81] + Zeros(16) + eapol[97..];
    var mic := new bv8[20];
    HmacSha1(kck, tmp, |eapol|, mic);
    ok := rxMic == mic[..16];
  }
}
