/** The fixed-size authentication messages (pkg/invite/invite.go, internal/auth/hmac.go). */
module Invite {
  import opened Bytes

  type Bytes16 = s: seq<Byte> | |s| == 16 witness seq(16, _ => 0)
  type Bytes32 = s: seq<Byte> | |s| == 32 witness seq(32, _ => 0)
  type Bytes64 = s: seq<Byte> | |s| == 64 witness seq(64, _ => 0)

  const HMAC_AUTH: Byte := 1
  const DEVICE_AUTH: Byte := 2
  const BOOTSTRAP: Byte := 3

  const HMAC_REQUEST_SIZE := 49
  const DEVICE_REQUEST_SIZE := 121
  const BOOTSTRAP_REQUEST_SIZE := 145
  const RESPONSE_SIZE := 17

  // ----- requests -----

  datatype HmacRequest = HmacRequest(version: Byte, nonce: Bytes16, token: Bytes32)

  datatype DeviceRequest =
    DeviceRequest(version: Byte, pubKey: Bytes32, nonce: Bytes16, timeBucket: Uint64, sig: Bytes64)

  datatype BootstrapRequest =
    BootstrapRequest(version: Byte, token: Bytes32, devicePub: Bytes32, name: Bytes64, nonce: Bytes16)

  function MarshalHmac(r: HmacRequest): (b: seq<Byte>)
    ensures |b| == HMAC_REQUEST_SIZE
  {
    [r.version] + r.nonce + r.token
  }

  function UnmarshalHmac(b: seq<Byte>): Option<HmacRequest> {
    if |b| < HMAC_REQUEST_SIZE then None else Some(HmacRequest(b[0], b[1..17], b[17..49]))
  }

  function MarshalDevice(r: DeviceRequest): (b: seq<Byte>)
    ensures |b| == DEVICE_REQUEST_SIZE
  {
    [r.version] + r.pubKey + r.nonce + BigEndian(r.timeBucket, 8) + r.sig
  }

  function UnmarshalDevice(b: seq<Byte>): Option<DeviceRequest> {
    if |b| < DEVICE_REQUEST_SIZE then None
    else Widths(); Some(DeviceRequest(b[0], b[1..33], b[33..49], FromBigEndian(b[49..57]), b[57..121]))
  }

  function MarshalBootstrap(r: BootstrapRequest): (b: seq<Byte>)
    ensures |b| == BOOTSTRAP_REQUEST_SIZE
  {
    [r.version] + r.token + r.devicePub + r.name + r.nonce
  }

  function UnmarshalBootstrap(b: seq<Byte>): Option<BootstrapRequest> {
    if |b| < BOOTSTRAP_REQUEST_SIZE then None
    else Some(BootstrapRequest(b[0], b[1..33], b[33..65], b[65..129], b[129..145]))
  }

  /** Each message decodes to itself, whatever follows it on the wire. */
  lemma HmacRoundTrip(r: HmacRequest, later: seq<Byte>)
    ensures UnmarshalHmac(MarshalHmac(r) + later) == Some(r)
  {
    var b := MarshalHmac(r) + later;
    assert b[1..17] == r.nonce && b[17..49] == r.token;
  }

  lemma DeviceRoundTrip(r: DeviceRequest, later: seq<Byte>)
    ensures UnmarshalDevice(MarshalDevice(r) + later) == Some(r)
  {
    Widths();
    var b := MarshalDevice(r) + later;
    assert b[1..33] == r.pubKey && b[33..49] == r.nonce;
    assert b[49..57] == BigEndian(r.timeBucket, 8) && b[57..121] == r.sig;
    BigEndianDecodes(r.timeBucket, 8);
  }

  lemma BootstrapRoundTrip(r: BootstrapRequest, later: seq<Byte>)
    ensures UnmarshalBootstrap(MarshalBootstrap(r) + later) == Some(r)
  {
    var b := MarshalBootstrap(r) + later;
    assert b[1..33] == r.token && b[33..65] == r.devicePub;
    assert b[65..129] == r.name && b[129..145] == r.nonce;
  }

  /** Conversely every byte string of the right size is the encoding of what it decodes to: the
      fixed-size formats leave no byte unused. */
  lemma MessagesTight(b: seq<Byte>)
    ensures |b| == HMAC_REQUEST_SIZE ==> MarshalHmac(UnmarshalHmac(b).value) == b
    ensures |b| == DEVICE_REQUEST_SIZE ==> MarshalDevice(UnmarshalDevice(b).value) == b
    ensures |b| == BOOTSTRAP_REQUEST_SIZE ==> MarshalBootstrap(UnmarshalBootstrap(b).value) == b
  {
    if |b| == DEVICE_REQUEST_SIZE {
      BigEndianEncodes(b[49..57]);
    }
  }

  /** Where each field of the requests is. */
  lemma HmacLayout(h: HmacRequest)
    ensures var x := MarshalHmac(h); x[0] == h.version && x[1..17] == h.nonce && x[17..] == h.token
  {
  }

  lemma DeviceLayout(d: DeviceRequest)
    ensures var x := MarshalDevice(d);
            && x[0] == d.version && x[1..33] == d.pubKey && x[33..49] == d.nonce && x[57..] == d.sig
            && FromBigEndian(x[49..57]) == d.timeBucket
  {
    Widths();
    BigEndianDecodes(d.timeBucket, 8);
    var x := MarshalDevice(d);
    hide FromBigEndian, BigEndian;
    assert x[49..57] == BigEndian(d.timeBucket, 8);
  }

  lemma BootstrapLayout(b: BootstrapRequest)
    ensures var x := MarshalBootstrap(b);
            && x[0] == b.version && x[1..33] == b.token && x[33..65] == b.devicePub && x[65..129] == b.name
            && x[129..] == b.nonce
  {
  }

  // ----- responses -----

  /** Status and session ID: the reply of all three modes. */
  datatype Response = Response(status: Byte, sessionId: Bytes16)

  function MarshalResponse(r: Response): (b: seq<Byte>)
    ensures |b| == RESPONSE_SIZE
  {
    [r.status] + r.sessionId
  }

  function UnmarshalResponse(b: seq<Byte>): Option<Response> {
    if |b| < RESPONSE_SIZE then None else Some(Response(b[0], b[1..17]))
  }

  lemma ResponseRoundTrip(r: Response, later: seq<Byte>)
    ensures UnmarshalResponse(MarshalResponse(r) + later) == Some(r)
    ensures (MarshalResponse(r) + later)[RESPONSE_SIZE..] == later
  {
    var b := MarshalResponse(r) + later;
    assert b[1..17] == r.sessionId;
  }

  // ----- fixed-size fields -----

  function Zeros(n: nat): (z: seq<Byte>)
    ensures |z| == n && forall i :: 0 <= i < n ==> z[i] == 0
  {
    seq(n, _ => 0)
  }

  function Clip(s: seq<Byte>, n: nat): (r: seq<Byte>)
    ensures |r| <= n
  {
    if |s| > n then s[..n] else s
  }

  /** Copying into a zeroed array of n bytes: truncated and zero-padded. */
  function Fit(s: seq<Byte>, n: nat): (r: seq<Byte>)
    ensures |r| == n && forall i :: 0 <= i < n ==> r[i] == if i < |s| then s[i] else 0
  {
    Clip(s, n) + Zeros(n - |Clip(s, n)|)
  }

  /** nullTrimBytes: everything before the first zero byte. */
  function UntilNull(s: seq<Byte>): seq<Byte> {
    if s == [] || s[0] == 0 then [] else [s[0]] + UntilNull(s[1..])
  }

  /** t is the part of b before its first zero byte. */
  predicate CutAtNull(t: seq<Byte>, b: seq<Byte>) {
    t <= b && 0 !in t && (t == b || b[|t|] == 0)
  }

  lemma {:induction false} UntilNullCuts(b: seq<Byte>)
    ensures CutAtNull(UntilNull(b), b)
  {
    if b != [] && b[0] != 0 {
      UntilNullCuts(b[1..]);
    }
  }

  method NullTrim(b: seq<Byte>) returns (t: seq<Byte>)
    ensures t == UntilNull(b) && CutAtNull(t, b)
  {
    var i := 0;
    while i < |b| && b[i] != 0
      invariant 0 <= i <= |b|
      invariant UntilNull(b) == b[..i] + UntilNull(b[i..])
    {
      assert b[i..][1..] == b[i + 1..];
      i := i + 1;
    }
    assert i < |b| ==> UntilNull(b[i..]) == [];
    t := b[..i];
    UntilNullCuts(b);
  }

  /** The first k bytes of a name are what a field of this size holds of it: all of it, or up to the
      size of the field or to the first zero byte. */
  predicate NameLength(name: seq<Byte>, size: nat, k: nat) {
    k <= |name| && k <= size && 0 !in name[..k] && (k == |name| || k == size || name[k] == 0)
  }

  /** A name survives its fixed-size field: what the server reads back is the name cut to the
      field's size and at its first zero byte. */
  lemma NameSurvives(name: seq<Byte>, size: nat) returns (k: nat)
    ensures NameLength(name, size, k) && UntilNull(Fit(name, size)) == name[..k]
  {
    var field := Fit(name, size);
    var t := UntilNull(field);
    UntilNullCuts(field);
    hide UntilNull, Fit;
    k := |t|;
    assert |name| < size ==> field[|name|] == 0;
    assert forall i :: 0 <= i < k ==> t[i] == field[i];
    assert t == name[..k];
  }
}
