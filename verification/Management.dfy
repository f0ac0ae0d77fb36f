/** Management frames as an access point sends them, section 9.3.3 of IEEE Std 802.11-2016. */
module Management {
  import opened Bytes

  /** A 16-bit field, low byte first. */
  function Low2(n: nat): (b: bytes)
    ensures |b| == 2
  {
    [Byte(n), Byte(n / 256)]
  }

  function AuthBody(algorithm: nat, sequence: nat, status: nat, rest: bytes): bytes {
    hide Low2;
    Low2(algorithm) + Low2(sequence) + Low2(status) + rest
  }

  function AssocBody(capability: nat, status: nat, aid: nat, rest: bytes): bytes {
    hide Low2;
    Low2(capability) + Low2(status) + Low2(aid) + rest
  }

  lemma AuthStatus(algorithm: nat, sequence: nat, status: nat, rest: bytes)
    requires status < 0x1_0000
    ensures var b := AuthBody(algorithm, sequence, status, rest); |b| >= 6 && Number(b[5], b[4]) == status
  {
    hide Byte, Number;
    NumberBytes(status);
  }

  lemma AssocStatus(capability: nat, status: nat, aid: nat, rest: bytes)
    requires status < 0x1_0000
    ensures var b := AssocBody(capability, status, aid, rest); |b| >= 6 && Number(b[3], b[2]) == status
  {
    hide Byte, Number;
    NumberBytes(status);
  }

  /** What every access point with an open door answers: open system, second frame of the exchange, success; and then
      the capabilities ESS, privacy and short slot time, success, association ID 1. */
  function Granted(): bytes {
    AuthBody(0, 2, 0, [])
  }

  function Admitted(): bytes {
    AssocBody(0x0411, 0, 0xc001, [])
  }

  lemma Successes()
    ensures |Granted()| >= 6 && Number(Granted()[5], Granted()[4]) == 0
    ensures |Admitted()| >= 6 && Number(Admitted()[3], Admitted()[2]) == 0
  {
    hide AuthBody, AssocBody;
    AuthStatus(0, 2, 0, []);
    AssocStatus(0x0411, 0, 0xc001, []);
  }

  /** A management frame: frame control, duration, three addresses, sequence control, body. */
  function Frame(subtype: bv8, flags: bv8, a1: Address, a2: Address, a3: Address, seqCtrl: bytes, body: bytes): (f: bytes)
    requires |seqCtrl| == 2
    ensures |f| == 24 + |body|
  {
    [subtype, flags, 0, 0] + a1 + a2 + a3 + seqCtrl + body
  }

  lemma FrameParts(subtype: bv8, flags: bv8, a1: Address, a2: Address, a3: Address, seqCtrl: bytes, body: bytes)
    requires |seqCtrl| == 2
    ensures var f := Frame(subtype, flags, a1, a2, a3, seqCtrl, body);
      f[0] == subtype && f[1] == flags && f[4..10] == a1 && f[10..16] == a2 && f[16..22] == a3 && f[24..] == body
  {
    var f := Frame(subtype, flags, a1, a2, a3, seqCtrl, body);
    Parts([subtype, flags, 0, 0], a1, a2, a3, seqCtrl + body);
    assert f == [subtype, flags, 0, 0] + a1 + a2 + a3 + (seqCtrl + body);
    assert f[0] == f[..4][0] && f[1] == f[..4][1];
    assert f[24..] == f[22..][2..];
  }

  lemma Parts(p: bytes, a: Address, b: Address, c: Address, q: bytes)
    requires |p| == 4
    ensures var f := p + a + b + c + q; f[..4] == p && f[4..10] == a && f[10..16] == b && f[16..22] == c && f[22..] == q
  {
    Part(p, a, b + c + q);
    Part(p + a, b, c + q);
    Part(p + a + b, c, q);
    var f := p + a + b + c + q;
    assert f == p + a + (b + c + q) && f == p + a + b + (c + q);
  }

  lemma Part(p: bytes, q: bytes, r: bytes)
    ensures (p + q + r)[|p|..|p| + |q|] == q
  {
  }
}
