/** The three authentication handshakes (internal/auth/device.go, internal/auth/hmac.go).

    Cryptography is a record of functions; what is assumed of them is stated where it is used.
    Clocks, random bytes and whether a save succeeds are parameters. */
module Auth {
  import opened Bytes
  import opened Text
  import opened Registry
  import opened Invite
  import Stream

  const REJECTED: Byte := 1
  const STATUS_OK: Byte := 0
  const HMAC_FAIL: Byte := 0xFF
  const BUCKET := 30

  datatype Crypto = Crypto(
    sha: Hash,
    mac: (seq<Byte>, seq<Byte>) -> Digest,
    publicKey: seq<Byte> -> Bytes32,
    sign: (seq<Byte>, seq<Byte>) -> Bytes64,
    verify: (seq<Byte>, seq<Byte>, seq<Byte>) -> bool)

  /** A signature verifies under the signer's public key. */
  ghost predicate SignaturesVerify(c: Crypto) {
    forall key, msg :: c.verify(c.publicKey(key), msg, c.sign(key, msg))
  }

  /** These two messages have different MACs under this key unless they are the same message. */
  predicate MacSeparates(c: Crypto, key: seq<Byte>, m: seq<Byte>, m': seq<Byte>) {
    c.mac(key, m) == c.mac(key, m') ==> m == m'
  }

  /** Integer division that truncates toward zero. */
  function Quotient(a: int, b: int): (q: int)
    requires b > 0
    ensures a >= 0 ==> 0 <= a - q * b < b
    ensures a <= 0 ==> -b < a - q * b <= 0
  {
    if a >= 0 then a / b else -((-a) / b)
  }

  function FormatInt(n: int): (t: seq<Byte>) {
    if n >= 0 then Decimal(n) else Ascii("-") + Decimal(-n)
  }

  function Unix(now: int): int { now / SECOND }

  /** The 30-second bucket of a point in time. */
  function TimeBucket(now: int): int { Quotient(Unix(now), BUCKET) }

  // ----- the HMAC token -----

  const PREFIX := Ascii("daxson-v1:")

  function MacInput(nonce: Bytes16, bucket: int): seq<Byte> {
    PREFIX + Hex(nonce) + Ascii(":") + FormatInt(bucket)
  }

  function Token(c: Crypto, psk: seq<Byte>, nonce: Bytes16, bucket: int): Digest {
    c.mac(c.sha(psk), MacInput(nonce, bucket))
  }

  lemma {:induction false} DecimalDigits(n: nat)
    ensures 48 <= Decimal(n)[0] <= 57
  {
    if n >= 10 {
      DecimalDigits(n / 10);
    }
  }

  lemma FormatIntInjective(a: int, b: int)
    requires FormatInt(a) == FormatInt(b)
    ensures a == b
  {
    if a >= 0 { DecimalDigits(a); } else { assert FormatInt(a)[1..] == Decimal(-a); }
    if b >= 0 { DecimalDigits(b); } else { assert FormatInt(b)[1..] == Decimal(-b); }
    if a >= 0 && b >= 0 {
      DecimalInjective(a, b);
    } else if a < 0 && b < 0 {
      DecimalInjective(-a, -b);
    }
  }

  /** Numerals read back: a minus sign exactly for negative numbers, then the digits of the size. */
  lemma FormatIntReads(n: int)
    ensures var t := FormatInt(n);
            if n >= 0 then Value(t) == n && t[0] != '-' as int else t[0] == '-' as int && Value(t[1..]) == -n
  {
    if n >= 0 {
      DecimalValue(n);
      DecimalDigits(n);
    } else {
      DecimalValue(-n);
      assert FormatInt(n)[1..] == Decimal(-n);
    }
  }

  /** The MAC input determines nonce and bucket. */
  lemma MacInputInjective(nonce: Bytes16, bucket: int, nonce': Bytes16, bucket': int)
    requires MacInput(nonce, bucket) == MacInput(nonce', bucket')
    ensures nonce == nonce' && bucket == bucket'
  {
    hide Hex, FormatInt, Ascii;
    var m, m' := MacInput(nonce, bucket), MacInput(nonce', bucket');
    assert |PREFIX| == 10;
    assert m[10..42] == Hex(nonce) && m'[10..42] == Hex(nonce');
    assert m[43..] == FormatInt(bucket) && m'[43..] == FormatInt(bucket');
    HexInjective(nonce, nonce');
    FormatIntInjective(bucket, bucket');
  }

  // ----- the server -----

  /** What the server brings to a handshake: keys, clock, fresh random bytes (randOk tells whether
      drawing a session ID for an HMAC handshake succeeded), whether a registry save succeeds, and
      whether writing the response succeeds or fails after the connection took some bytes. */
  datatype Env = Env(c: Crypto, psk: seq<Byte>, now: int, sid: Bytes16, junk: Bytes16, randOk: bool, saveOk: bool,
                     writeOk: bool, taken: nat)

  /** What reaches the client of a response. */
  function Sent(env: Env, bytes: seq<Byte>): seq<Byte> {
    if env.writeOk || env.taken >= |bytes| then bytes else bytes[..env.taken]
  }

  /** The whole response reaches the client. */
  predicate Delivered(env: Env) {
    env.writeOk || env.taken >= RESPONSE_SIZE
  }

  /** The session granted; otherwise whether the failure is the one that sends the connection on to
      the probe upstream; the bytes left unread, the reply written and the registry afterwards. */
  datatype Outcome = Outcome(session: Option<Bytes16>, authFailed: bool, rest: seq<Byte>, reply: seq<Byte>,
                             reg: Option<Store>)

  function Reply(status: Byte, sid: Bytes16): seq<Byte> {
    MarshalResponse(Response(status, sid))
  }

  predicate HmacValid(env: Env, r: HmacRequest) {
    || r.token == Token(env.c, env.psk, r.nonce, TimeBucket(env.now))
    || r.token == Token(env.c, env.psk, r.nonce, TimeBucket(env.now - 30 * SECOND))
  }

  function HmacServe(env: Env, reg: Option<Store>, input: seq<Byte>): Outcome {
    var req := UnmarshalHmac(input);
    if req.None? then Outcome(None, false, [], [], reg)
    else
      var rest := input[HMAC_REQUEST_SIZE..];
      var valid := req.value.version == HMAC_AUTH && HmacValid(env, req.value);
      if !valid || !env.randOk then Outcome(None, !valid, rest, Sent(env, Reply(HMAC_FAIL, env.junk)), reg)
      else
        Outcome(if env.writeOk then Some(env.sid) else None, false, rest, Sent(env, Reply(STATUS_OK, env.sid)), reg)
  }

  /** Unsigned 64-bit wrap-around. */
  function Wrap64(x: int): (r: Uint64) { x % 0x1_0000_0000_0000_0000 }

  /** The time check of device authentication, in unsigned arithmetic. */
  predicate BucketFresh(bucket: Uint64, now: int) {
    var here := Wrap64(TimeBucket(now));
    !(bucket < Wrap64(here - 1) || bucket > Wrap64(here + 1))
  }

  function SignedMessage(pub: Bytes32, nonce: Bytes16, bucket: Uint64): seq<Byte> {
    pub + nonce + BigEndian(bucket, 8)
  }

  predicate DeviceValid(env: Env, r: DeviceRequest) {
    && BucketFresh(r.timeBucket, env.now)
    && env.c.verify(r.pubKey, SignedMessage(r.pubKey, r.nonce, r.timeBucket), r.sig)
  }

  function DeviceServe(env: Env, st: Store, input: seq<Byte>): Outcome {
    var req := UnmarshalDevice(input);
    if req.None? then Outcome(None, false, [], [], Some(st))
    else
      var rest := input[DEVICE_REQUEST_SIZE..];
      var r := req.value;
      if !DeviceValid(env, r) then Outcome(None, false, rest, Sent(env, Reply(REJECTED, env.junk)), Some(st))
      else
        var status := AuthorizeStatus(st, r.pubKey);
        Outcome(if status == AUTH_OK then Some(env.sid) else None, status != AUTH_OK, rest,
                Sent(env, Reply(status, env.sid)), Some(Authorized(st, r.pubKey, env.now)))
  }

  function BootstrapServe(env: Env, st: Store, input: seq<Byte>): Outcome {
    var req := UnmarshalBootstrap(input);
    if req.None? then Outcome(None, false, [], [], Some(st))
    else
      var rest := input[BOOTSTRAP_REQUEST_SIZE..];
      var r := req.value;
      var status := BootstrapStatus(st, r.token, env.now);
      Outcome(if status == BOOTSTRAP_OK && env.saveOk then Some(env.sid) else None, status != BOOTSTRAP_OK, rest,
              Sent(env, Reply(status, env.sid)),
              Some(Bootstrapped(env.c.sha, st, r.token, r.devicePub, UntilNull(r.name), env.now)))
  }

  /** ServerDispatch over values. No registry (relay mode) refuses device and bootstrap requests. */
  function Dispatch(env: Env, reg: Option<Store>, input: seq<Byte>): Outcome {
    if input == [] then Outcome(None, false, [], [], reg)
    else if input[0] == HMAC_AUTH then HmacServe(env, reg, input)
    else if input[0] == DEVICE_AUTH then
      if reg.None? then Outcome(None, true, input[1..], Sent(env, Reply(REJECTED, env.junk)), reg)
      else DeviceServe(env, reg.value, input)
    else if input[0] == BOOTSTRAP then
      if reg.None? then Outcome(None, true, input[1..], Sent(env, Reply(BOOTSTRAP_INVALID, env.junk)), reg)
      else BootstrapServe(env, reg.value, input)
    else Outcome(None, true, input[1..], [], reg)
  }

  /** A connection: incoming bytes and what has been written back. */
  class Duplex {
    const src: Stream.Source
    var sent: seq<Byte>

    constructor (src: Stream.Source)
      ensures this.src == src && sent == []
    {
      this.src := src;
      sent := [];
    }

    method Write(bytes: seq<Byte>, env: Env) returns (ok: bool)
      modifies this
      ensures sent == old(sent) + Sent(env, bytes) && ok == env.writeOk
    {
      sent := sent + Sent(env, bytes);
      ok := env.writeOk;
    }
  }

  /** hmac.go's ServerHandshake, the version byte having been read already. */
  method HmacHandshake(conn: Duplex, env: Env, first: seq<Byte>)
    returns (session: Option<Bytes16>, authFailed: bool)
    requires |first| == 1
    modifies conn, conn.src
    ensures var o := HmacServe(env, None, first + old(conn.src.data));
            && session == o.session && authFailed == o.authFailed
            && conn.src.data == o.rest && conn.sent == old(conn.sent) + o.reply
  {
    ghost var input := first + conn.src.data;
    var remaining := conn.src.ReadFull(HMAC_REQUEST_SIZE - 1);
    if remaining.None? {
      return None, false;
    }
    var full := first + remaining.value;
    assert full == input[..HMAC_REQUEST_SIZE] && conn.src.data == input[HMAC_REQUEST_SIZE..];
    var req := UnmarshalHmac(full).value;
    assert UnmarshalHmac(input) == Some(req) by { HmacPrefix(input); }
    if req.version != HMAC_AUTH || !HmacValid(env, req) {
      var _ := conn.Write(Reply(HMAC_FAIL, env.junk), env);
      return None, true;
    }
    if !env.randOk {
      var _ := conn.Write(Reply(HMAC_FAIL, env.junk), env);
      return None, false;
    }
    var ok := conn.Write(Reply(STATUS_OK, env.sid), env);
    return if ok then Some(env.sid) else None, false;
  }

  lemma HmacPrefix(b: seq<Byte>)
    requires |b| >= HMAC_REQUEST_SIZE
    ensures UnmarshalHmac(b[..HMAC_REQUEST_SIZE]) == UnmarshalHmac(b)
  {
    var p := b[..HMAC_REQUEST_SIZE];
    assert p[1..17] == b[1..17] && p[17..49] == b[17..49];
  }

  lemma DevicePrefix(b: seq<Byte>)
    requires |b| >= DEVICE_REQUEST_SIZE
    ensures UnmarshalDevice(b[..DEVICE_REQUEST_SIZE]) == UnmarshalDevice(b)
  {
    var p := b[..DEVICE_REQUEST_SIZE];
    assert p[1..33] == b[1..33] && p[33..49] == b[33..49] && p[49..57] == b[49..57] && p[57..121] == b[57..121];
  }

  lemma BootstrapPrefix(b: seq<Byte>)
    requires |b| >= BOOTSTRAP_REQUEST_SIZE
    ensures UnmarshalBootstrap(b[..BOOTSTRAP_REQUEST_SIZE]) == UnmarshalBootstrap(b)
  {
    var p := b[..BOOTSTRAP_REQUEST_SIZE];
    assert p[1..33] == b[1..33] && p[33..65] == b[33..65] && p[65..129] == b[65..129] && p[129..145] == b[129..145];
  }

  method DeviceHandshake(conn: Duplex, env: Env, first: seq<Byte>, reg: Registry)
    returns (session: Option<Bytes16>, authFailed: bool)
    requires |first| == 1
    modifies conn, conn.src, reg
    ensures var o := DeviceServe(env, old(reg.Data()), first + old(conn.src.data));
            && session == o.session && authFailed == o.authFailed
            && conn.src.data == o.rest && conn.sent == old(conn.sent) + o.reply
            && Some(reg.Data()) == o.reg
  {
    ghost var input := first + conn.src.data;
    var remaining := conn.src.ReadFull(DEVICE_REQUEST_SIZE - 1);
    if remaining.None? {
      return None, false;
    }
    var full := first + remaining.value;
    assert full == input[..DEVICE_REQUEST_SIZE] && conn.src.data == input[DEVICE_REQUEST_SIZE..];
    var req := UnmarshalDevice(full).value;
    assert UnmarshalDevice(input) == Some(req) by { DevicePrefix(input); }
    if !DeviceValid(env, req) {
      var _ := conn.Write(Reply(REJECTED, env.junk), env);
      return None, false;
    }
    var status := reg.AuthorizeDevice(req.pubKey, env.now, env.saveOk);
    var _ := conn.Write(Reply(status, env.sid), env);
    if status != AUTH_OK {
      return None, true;
    }
    return Some(env.sid), false;
  }

  method BootstrapHandshake(conn: Duplex, env: Env, first: seq<Byte>, reg: Registry)
    returns (session: Option<Bytes16>, authFailed: bool)
    requires |first| == 1 && reg.sha == env.c.sha
    modifies conn, conn.src, reg
    ensures var o := BootstrapServe(env, old(reg.Data()), first + old(conn.src.data));
            && session == o.session && authFailed == o.authFailed
            && conn.src.data == o.rest && conn.sent == old(conn.sent) + o.reply
            && Some(reg.Data()) == o.reg
  {
    ghost var input := first + conn.src.data;
    var remaining := conn.src.ReadFull(BOOTSTRAP_REQUEST_SIZE - 1);
    if remaining.None? {
      return None, false;
    }
    var full := first + remaining.value;
    assert full == input[..BOOTSTRAP_REQUEST_SIZE] && conn.src.data == input[BOOTSTRAP_REQUEST_SIZE..];
    var req := UnmarshalBootstrap(full).value;
    assert UnmarshalBootstrap(input) == Some(req) by { BootstrapPrefix(input); }
    var name := NullTrim(req.name);
    var status, failed := reg.Bootstrap(req.token, req.devicePub, name, env.now, env.saveOk);
    var _ := conn.Write(Reply(status, env.sid), env);
    if failed {
      return None, false;
    }
    if status != BOOTSTRAP_OK {
      return None, true;
    }
    return Some(env.sid), false;
  }

  /** ServerDispatch: whatever bytes arrive, however reads are split, it does what Dispatch says. */
  method ServerDispatch(conn: Duplex, env: Env, reg: Registry?) returns (session: Option<Bytes16>, authFailed: bool)
    requires reg != null ==> reg.sha == env.c.sha
    modifies conn, conn.src, reg
    ensures var o := Dispatch(env, if reg == null then None else Some(old(reg.Data())), old(conn.src.data));
            && session == o.session && authFailed == o.authFailed
            && conn.src.data == o.rest && conn.sent == old(conn.sent) + o.reply
            && (reg != null ==> Some(reg.Data()) == o.reg)
  {
    ghost var input := conn.src.data;
    var first := conn.src.ReadFull(1);
    if first.None? {
      return None, false;
    }
    assert first.value + conn.src.data == input && first.value[0] == input[0];
    hide HmacServe, DeviceServe, BootstrapServe;
    if first.value[0] == HMAC_AUTH {
      HmacIgnoresRegistry(env, if reg == null then None else Some(reg.Data()), input);
      session, authFailed := HmacHandshake(conn, env, first.value);
    } else if first.value[0] == DEVICE_AUTH {
      if reg == null {
        var _ := conn.Write(Reply(REJECTED, env.junk), env);
        return None, true;
      }
      session, authFailed := DeviceHandshake(conn, env, first.value, reg);
    } else if first.value[0] == BOOTSTRAP {
      if reg == null {
        var _ := conn.Write(Reply(BOOTSTRAP_INVALID, env.junk), env);
        return None, true;
      }
      session, authFailed := BootstrapHandshake(conn, env, first.value, reg);
    } else {
      return None, true;
    }
  }

  lemma HmacIgnoresRegistry(env: Env, reg: Option<Store>, input: seq<Byte>)
    ensures HmacServe(env, reg, input) == HmacServe(env, None, input).(reg := reg)
  {
  }

  // ----- the clients -----

  function HmacRequestOf(c: Crypto, psk: seq<Byte>, nonce: Bytes16, now: int): HmacRequest {
    HmacRequest(HMAC_AUTH, nonce, Token(c, psk, nonce, TimeBucket(now)))
  }

  function HmacClient(c: Crypto, psk: seq<Byte>, nonce: Bytes16, now: int): seq<Byte> {
    MarshalHmac(HmacRequestOf(c, psk, nonce, now))
  }

  function DeviceRequestOf(c: Crypto, key: seq<Byte>, nonce: Bytes16, now: int): DeviceRequest {
    var pub, bucket := c.publicKey(key), Wrap64(TimeBucket(now));
    DeviceRequest(DEVICE_AUTH, pub, nonce, bucket, c.sign(key, SignedMessage(pub, nonce, bucket)))
  }

  function DeviceClient(c: Crypto, key: seq<Byte>, nonce: Bytes16, now: int): seq<Byte> {
    MarshalDevice(DeviceRequestOf(c, key, nonce, now))
  }

  function BootstrapClient(c: Crypto, token: seq<Byte>, key: seq<Byte>, name: seq<Byte>, nonce: Bytes16): seq<Byte> {
    MarshalBootstrap(BootstrapRequest(BOOTSTRAP, Fit(token, 32), c.publicKey(key), Fit(name, 64), nonce))
  }

  /** All three clients read a 17-byte response and succeed on status 0. */
  datatype ClientOutcome = ClientOutcome(session: Option<Bytes16>, rest: seq<Byte>)

  function ClientFinish(incoming: seq<Byte>): ClientOutcome {
    var resp := UnmarshalResponse(incoming);
    if resp.None? then ClientOutcome(None, [])
    else ClientOutcome(if resp.value.status == STATUS_OK then Some(resp.value.sessionId) else None,
                       incoming[RESPONSE_SIZE..])
  }

  method ClientRead(conn: Duplex) returns (session: Option<Bytes16>)
    modifies conn.src
    ensures ClientOutcome(session, conn.src.data) == ClientFinish(old(conn.src.data))
  {
    ghost var input := conn.src.data;
    var buf := conn.src.ReadFull(RESPONSE_SIZE);
    if buf.None? {
      return None;
    }
    var resp := UnmarshalResponse(buf.value).value;
    assert buf.value[1..17] == input[1..17];
    if resp.status != STATUS_OK {
      return None;
    }
    return Some(resp.sessionId);
  }

  /** What follows the response on the way to the client; nothing after a failed write. */
  function Following(env: Env, more: seq<Byte>): seq<Byte> {
    if env.writeOk then more else []
  }

  lemma ClientReads(env: Env, status: Byte, sid: Bytes16, more: seq<Byte>)
    ensures ClientFinish(Sent(env, Reply(status, sid)) + Following(env, more)) ==
            ClientOutcome(if status == STATUS_OK && Delivered(env) then Some(sid) else None, Following(env, more))
  {
    ResponseRoundTrip(Response(status, sid), Following(env, more));
    hide UnmarshalResponse;
    if !Delivered(env) {
      TooShort(Sent(env, Reply(status, sid)) + []);
    }
  }

  lemma TooShort(b: seq<Byte>)
    requires |b| < RESPONSE_SIZE
    ensures UnmarshalResponse(b) == None
  {
  }

  // ----- agreement -----

  /** Both sides end with the same session or both fail, the server has read exactly the request
      and the client exactly the response. */
  predicate Agrees(o: Outcome, later: seq<Byte>, more: seq<Byte>) {
    && ClientFinish(o.reply + more) == ClientOutcome(o.session, more)
    && (o.session.Some? ==> o.rest == later)
  }

  lemma RequestRest(q: seq<Byte>, later: seq<Byte>)
    ensures (q + later)[|q|..] == later
  {
  }

  /** HMAC mode agrees, whatever the keys, clocks and following bytes, unless the write of a
      successful response fails after all of it went out. */
  lemma HmacAgreement(env: Env, reg: Option<Store>, c: Crypto, psk: seq<Byte>, nonce: Bytes16, now: int,
                      later: seq<Byte>, more: seq<Byte>)
    ensures Agrees(Dispatch(env, reg, HmacClient(c, psk, nonce, now) + later), later, Following(env, more)) <==>
            env.writeOk || !Delivered(env) || !env.randOk || !HmacValid(env, HmacRequestOf(c, psk, nonce, now))
  {
    var r := HmacRequestOf(c, psk, nonce, now);
    HmacRoundTrip(r, later);
    RequestRest(MarshalHmac(r), later);
    ClientReads(env, HMAC_FAIL, env.junk, more);
    ClientReads(env, STATUS_OK, env.sid, more);
    hide Reply, Sent, Following, ClientFinish, HmacValid, UnmarshalHmac, Token;
  }

  /** Device mode agrees, relay mode included, unless a response that grants a session does not
      reach the client whole. */
  lemma DeviceAgreement(env: Env, reg: Option<Store>, c: Crypto, key: seq<Byte>, nonce: Bytes16, now: int,
                        later: seq<Byte>, more: seq<Byte>)
    ensures Agrees(Dispatch(env, reg, DeviceClient(c, key, nonce, now) + later), later, Following(env, more)) <==>
            || Delivered(env) || reg.None? || !DeviceValid(env, DeviceRequestOf(c, key, nonce, now))
            || AuthorizeStatus(reg.value, c.publicKey(key)) != AUTH_OK
  {
    var r := DeviceRequestOf(c, key, nonce, now);
    DeviceRoundTrip(r, later);
    RequestRest(MarshalDevice(r), later);
    ClientReads(env, REJECTED, env.junk, more);
    if reg.Some? {
      ClientReads(env, AuthorizeStatus(reg.value, r.pubKey), env.sid, more);
    }
    hide Reply, Sent, Following, ClientFinish, DeviceValid, UnmarshalDevice, SignedMessage, AuthorizeStatus, Authorized;
  }

  /** Bootstrap mode agrees exactly when nothing is granted or the save after the grant and the
      delivery of the response succeed or fail together: on a failed save the client is told it
      succeeded and the server gives up. */
  lemma BootstrapAgreement(env: Env, reg: Option<Store>, c: Crypto, token: seq<Byte>, key: seq<Byte>, name: seq<Byte>,
                           nonce: Bytes16, later: seq<Byte>, more: seq<Byte>)
    ensures Agrees(Dispatch(env, reg, BootstrapClient(c, token, key, name, nonce) + later), later,
                   Following(env, more)) <==>
            || reg.None? || BootstrapStatus(reg.value, Fit(token, 32), env.now) != BOOTSTRAP_OK
            || env.saveOk == Delivered(env)
  {
    var r := BootstrapRequest(BOOTSTRAP, Fit(token, 32), c.publicKey(key), Fit(name, 64), nonce);
    BootstrapRoundTrip(r, later);
    RequestRest(MarshalBootstrap(r), later);
    ClientReads(env, BOOTSTRAP_INVALID, env.junk, more);
    if reg.Some? {
      ClientReads(env, BootstrapStatus(reg.value, r.token, env.now), env.sid, more);
    }
    hide Reply, Sent, Following, ClientFinish, UnmarshalBootstrap, Bootstrapped, BootstrapStatus, Fit, UntilNull;
  }
}
