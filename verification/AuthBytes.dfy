/** What the server does with arbitrary bytes, by their offsets on the wire (internal/auth/device.go,
    internal/auth/hmac.go). */
module AuthBytes {
  import opened Bytes
  import opened Text
  import opened Registry
  import opened Invite
  import opened Auth

  // ----- device requests -----

  function BucketAt(input: seq<Byte>): (b: Uint64)
    requires |input| >= 121
  {
    Widths();
    FromBigEndian(input[49..57])
  }

  /** The signature at offset 57 verifies, under the key at offset 1, over key, nonce and time bucket. */
  predicate ProperlySigned(c: Crypto, input: seq<Byte>)
    requires |input| >= 121
  {
    c.verify(input[1..33], input[1..57], input[57..121])
  }

  lemma SignedBytes(input: seq<Byte>)
    requires |input| >= 121
    ensures var r := UnmarshalDevice(input).value;
            && r.pubKey == input[1..33] && r.timeBucket == BucketAt(input) && r.sig == input[57..121]
            && SignedMessage(r.pubKey, r.nonce, r.timeBucket) == input[1..57]
  {
    BigEndianEncodes(input[49..57]);
    hide BigEndian, FromBigEndian;
    assert input[1..57] == input[1..33] + input[33..49] + input[49..57];
  }

  /** A device request: too short and nothing is answered; stale or badly signed and it is rejected
      with status 1; otherwise the registry's answer is sent. A session is granted exactly to a fresh,
      properly signed request of an enrolled key. */
  lemma DeviceBytes(env: Env, st: Store, input: seq<Byte>)
    requires input != [] && input[0] == 2
    ensures var o := Dispatch(env, Some(st), input);
            if |input| < 121 then o == Outcome(None, false, [], [], Some(st))
            else
              var valid := BucketFresh(BucketAt(input), env.now) && ProperlySigned(env.c, input);
              var key := input[1..33];
              && o.rest == input[121..]
              && o.session == (if valid && Enrolled(st.devices, key) then Some(env.sid) else None)
              && o.authFailed == (valid && !Enrolled(st.devices, key))
              && o.reply == Sent(env, if valid then [AuthorizeStatus(st, key)] + env.sid else [1] + env.junk)
              && o.reg == Some(if valid then Authorized(st, key, env.now) else st)
  {
    if |input| >= 121 {
      SignedBytes(input);
      AuthorizeExact(st, input[1..33], env.now);
      hide BucketFresh, SignedMessage, AuthorizeStatus, Authorized, Enrolled, Sent, BucketAt;
    }
  }

  /** The time check in plain numbers, for every bucket a request can carry and every server time whose
      seconds are not negative and fit a signed 64-bit integer: within one of the server's bucket, and
      never in the server's first bucket. */
  lemma FreshBuckets(bucket: Uint64, now: int)
    requires 0 <= now / 1_000_000_000 < 0x8000_0000_0000_0000
    ensures var here := now / 30_000_000_000;
            BucketFresh(bucket, now) <==> here >= 1 && here - 1 <= bucket <= here + 1
  {
    var here := TimeBucket(now);
    assert here == now / 30_000_000_000;
    assert 0 <= here < 0x8000_0000_0000_0000;
    hide TimeBucket;
  }

  // ----- HMAC requests -----

  /** The token of a nonce for a point in time. */
  function Expected(env: Env, nonce: seq<Byte>, t: int): Digest {
    env.c.mac(env.c.sha(env.psk), Ascii("daxson-v1:") + Hex(nonce) + Ascii(":") + FormatInt(TimeBucket(t)))
  }

  /** An HMAC request: accepted exactly when the 32 bytes at offset 17 are the token of the 16 bytes at
      offset 1 for the server's time or for 30 seconds before it, a session ID can be drawn and the
      response written; the registry plays no part. */
  lemma HmacBytes(env: Env, reg: Option<Store>, input: seq<Byte>)
    requires input != [] && input[0] == 1
    ensures var o := Dispatch(env, reg, input);
            if |input| < 49 then o == Outcome(None, false, [], [], reg)
            else
              var nonce, token := input[1..17], input[17..49];
              var valid :=
                token == Expected(env, nonce, env.now) || token == Expected(env, nonce, env.now - 30_000_000_000);
              && o.rest == input[49..] && o.reg == reg
              && o.session == (if valid && env.randOk && env.writeOk then Some(env.sid) else None)
              && o.authFailed == !valid
              && o.reply == Sent(env, if valid && env.randOk then [0] + env.sid else [255] + env.junk)
  {
    hide TimeBucket, FormatInt, Ascii, Hex, Sent;
  }

  // ----- bootstrap requests -----

  /** A bootstrap request: the registry's answer for the token at offset 1 is sent, and a session is
      granted exactly when it is status 0 and the save succeeded. On status 0 the key at offset 33 is
      recorded under the name at offset 65, cut at its first zero byte. */
  lemma BootstrapBytes(env: Env, st: Store, input: seq<Byte>)
    requires input != [] && input[0] == 3
    ensures var o := Dispatch(env, Some(st), input);
            if |input| < 145 then o == Outcome(None, false, [], [], Some(st))
            else
              var status := BootstrapStatus(st, input[1..33], env.now);
              && o.rest == input[145..] && o.reg.Some?
              && o.session == (if status == 0 && env.saveOk then Some(env.sid) else None)
              && o.authFailed == (status != 0)
              && o.reply == Sent(env, [status] + env.sid)
              && (status != 0 ==> o.reg == Some(st))
              && (status == 0 ==> Recorded(env, st, o.reg.value, input[33..65], input[65..129]))
  {
    if |input| >= 145 {
      BootstrapChanges(env.c.sha, st, input[1..33], input[33..65], UntilNull(input[65..129]), env.now);
      UntilNullCuts(input[65..129]);
      hide BootstrapStatus, Bootstrapped, Hex, Ascii, UntilNull, FirstLive, Sent;
    }
  }

  /** st' is st with one more device: this key, registered now, named by what the field holds before
      its first zero byte or by its short ID. */
  ghost predicate Recorded(env: Env, st: Store, st': Store, key: seq<Byte>, field: seq<Byte>) {
    && |st'.devices| == |st.devices| + 1 && st.devices <= st'.devices
    && var d := st'.devices[|st.devices|];
       var id := Hex(env.c.sha(key)[..3]);
       && d.pubKey == key && d.deviceId == id && d.registeredAt == env.now && !d.revoked
       && (field == [] || field[0] == 0 ==> d.name == Ascii("device-") + id)
       && (field != [] && field[0] != 0 ==> CutAtNull(d.name, field))
  }

  /** Everything else is refused: an empty stream without an answer, an unknown first byte silently, and
      both registry modes on a server that has no registry. */
  lemma OtherBytes(env: Env, reg: Option<Store>, input: seq<Byte>)
    requires input == [] || input[0] !in {1, 2, 3} || (reg.None? && input[0] != 1)
    ensures var o := Dispatch(env, reg, input);
            && o.session.None? && o.reg == reg && o.authFailed == (input != [])
            && o.rest == (if input == [] then [] else input[1..])
            && o.reply == (if input != [] && input[0] in {2, 3} then Sent(env, [1] + env.junk) else [])
  {
  }

  // ----- what the clients send -----

  /** The HMAC client sends nonce and token for its own time. */
  lemma HmacClientBytes(env: Env, nonce: Bytes16, now: int)
    ensures var x := HmacClient(env.c, env.psk, nonce, now);
            |x| == 49 && x[0] == 1 && x[1..17] == nonce && x[17..] == Expected(env, nonce, now)
  {
    hide TimeBucket, FormatInt, Ascii, Hex;
  }

  /** The device client sends key, nonce, time bucket and a signature over those 56 bytes. */
  lemma DeviceClientBytes(c: Crypto, key: seq<Byte>, nonce: Bytes16, now: int)
    ensures var x := DeviceClient(c, key, nonce, now);
            && |x| == 121 && x[0] == 2 && x[1..33] == c.publicKey(key) && x[33..49] == nonce
            && FromBigEndian(x[49..57]) == Wrap64(TimeBucket(now)) && x[57..] == c.sign(key, x[1..57])
  {
    var d := DeviceRequestOf(c, key, nonce, now);
    DeviceLayout(d);
    SignedBytes(MarshalDevice(d));
    DeviceRoundTrip(d, []);
    assert MarshalDevice(d) + [] == MarshalDevice(d);
    hide TimeBucket, FromBigEndian, BigEndian, SignedMessage, UnmarshalDevice, MarshalDevice;
  }

  /** The bootstrap client sends token, key, name and nonce. */
  lemma BootstrapClientBytes(c: Crypto, token: Bytes32, key: seq<Byte>, name: seq<Byte>, nonce: Bytes16)
    ensures var x := BootstrapClient(c, token, key, name, nonce);
            && |x| == 145 && x[0] == 3 && x[1..33] == token && x[33..65] == c.publicKey(key)
            && (forall i :: 0 <= i < 64 ==> x[65 + i] == if i < |name| then name[i] else 0)
            && x[129..] == nonce
  {
    var b := BootstrapRequest(BOOTSTRAP, Fit(token, 32), c.publicKey(key), Fit(name, 64), nonce);
    assert Fit(token, 32) == token;
    BootstrapLayout(b);
    hide Fit, MarshalBootstrap;
    var x := MarshalBootstrap(b);
    assert forall i :: 0 <= i < 64 ==> x[65 + i] == x[65..129][i];
  }
}
