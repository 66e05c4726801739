/** When a handshake succeeds: clock skew, signatures and the registry's answer. Times are
    nanoseconds. */
module AuthWindow {
  import opened Bytes
  import opened Text
  import opened Registry
  import opened Invite
  import opened Auth

  const WINDOW := BUCKET * SECOND

  lemma BucketOf(t: int)
    requires t >= 0
    ensures TimeBucket(t) == t / WINDOW
  {
  }

  /** Times whose Unix seconds are not negative and fit a signed 64-bit integer. */
  predicate Representable(t: int) {
    0 <= Unix(t) < 0x8000_0000_0000_0000
  }

  // ----- HMAC -----

  /** The client's MAC input collides with neither of the two the server computes. */
  predicate CollisionFree(env: Env, nonce: Bytes16, bucket: int) {
    var key, m := env.c.sha(env.psk), MacInput(nonce, bucket);
    && MacSeparates(env.c, key, m, MacInput(nonce, TimeBucket(env.now)))
    && MacSeparates(env.c, key, m, MacInput(nonce, TimeBucket(env.now - WINDOW)))
  }

  lemma TokensDiffer(c: Crypto, psk: seq<Byte>, nonce: Bytes16, a: int, b: int)
    requires MacSeparates(c, c.sha(psk), MacInput(nonce, a), MacInput(nonce, b))
    ensures Token(c, psk, nonce, a) == Token(c, psk, nonce, b) <==> a == b
  {
    if Token(c, psk, nonce, a) == Token(c, psk, nonce, b) {
      MacInputInjective(nonce, a, nonce, b);
    }
  }

  lemma HmacSession(env: Env, reg: Option<Store>, r: HmacRequest, later: seq<Byte>)
    requires r.version == HMAC_AUTH
    ensures Dispatch(env, reg, MarshalHmac(r) + later).session.Some? <==> env.randOk && env.writeOk && HmacValid(env, r)
  {
    HmacRoundTrip(r, later);
    hide HmacValid, UnmarshalHmac, Reply, Sent;
  }

  lemma HmacValidBuckets(env: Env, nonce: Bytes16, bucket: int)
    requires CollisionFree(env, nonce, bucket)
    ensures HmacValid(env, HmacRequest(HMAC_AUTH, nonce, Token(env.c, env.psk, nonce, bucket))) <==>
            bucket == TimeBucket(env.now) || bucket == TimeBucket(env.now - WINDOW)
  {
    TokensDiffer(env.c, env.psk, nonce, bucket, TimeBucket(env.now));
    TokensDiffer(env.c, env.psk, nonce, bucket, TimeBucket(env.now - WINDOW));
    hide Token, TimeBucket, CollisionFree;
  }

  /** Without a MAC collision the server accepts exactly the buckets of its own clock now and 30
      seconds ago, provided it can draw a session ID and write the response. */
  lemma HmacAccepts(env: Env, reg: Option<Store>, nonce: Bytes16, now: int, later: seq<Byte>)
    requires CollisionFree(env, nonce, TimeBucket(now))
    ensures Dispatch(env, reg, HmacClient(env.c, env.psk, nonce, now) + later).session.Some? <==>
            && env.randOk && env.writeOk
            && (TimeBucket(now) == TimeBucket(env.now) || TimeBucket(now) == TimeBucket(env.now - WINDOW))
  {
    var r := HmacRequestOf(env.c, env.psk, nonce, now);
    HmacSession(env, reg, r, later);
    HmacValidBuckets(env, nonce, TimeBucket(now));
    hide Token, Dispatch, TimeBucket, MarshalHmac, CollisionFree, HmacValid;
  }

  /** So for server times of at least 30 s the window is one-sided: the current bucket and the one
      before it. A client up to 30 s behind is accepted, one 60 s behind or 30 s ahead is refused,
      and so is every client one bucket ahead. */
  lemma HmacSkew(env: Env, reg: Option<Store>, nonce: Bytes16, now: int, later: seq<Byte>)
    requires CollisionFree(env, nonce, TimeBucket(now))
    requires env.now >= WINDOW && now >= 0
    ensures var ok := Dispatch(env, reg, HmacClient(env.c, env.psk, nonce, now) + later).session.Some?;
            && (ok <==> env.randOk && env.writeOk && 0 <= TimeBucket(env.now) - TimeBucket(now) <= 1)
            && (env.randOk && env.writeOk && 0 <= env.now - now <= WINDOW ==> ok)
            && (env.now - now >= 2 * WINDOW || now - env.now >= WINDOW ==> !ok)
            && (TimeBucket(now) == TimeBucket(env.now) + 1 ==> !ok)
  {
    HmacAccepts(env, reg, nonce, now, later);
    BucketOf(now);
    BucketOf(env.now);
    BucketOf(env.now - WINDOW);
    hide Dispatch, HmacClient, TimeBucket, CollisionFree;
  }

  // ----- device keys -----

  /** The unsigned comparison accepts the server's bucket and its two neighbours, except that in
      the first bucket the subtraction wraps and everything is refused. */
  lemma BucketWindow(clientNow: int, serverNow: int)
    requires Representable(clientNow) && Representable(serverNow)
    ensures BucketFresh(Wrap64(TimeBucket(clientNow)), serverNow) <==>
            TimeBucket(serverNow) >= 1 && -1 <= TimeBucket(clientNow) - TimeBucket(serverNow) <= 1
  {
    var a, b := TimeBucket(clientNow), TimeBucket(serverNow);
    assert 0 <= a < 0x8000_0000_0000_0000 && 0 <= b < 0x8000_0000_0000_0000;
    hide TimeBucket;
  }

  /** The time check passes for every skew up to 30 s and fails for every skew of 60 s or more. */
  lemma DeviceSkew(clientNow: int, serverNow: int)
    requires Representable(clientNow) && Representable(serverNow) && clientNow >= 0 && serverNow >= WINDOW
    ensures -WINDOW <= clientNow - serverNow <= WINDOW ==> BucketFresh(Wrap64(TimeBucket(clientNow)), serverNow)
    ensures clientNow - serverNow >= 2 * WINDOW || serverNow - clientNow >= 2 * WINDOW ==>
              !BucketFresh(Wrap64(TimeBucket(clientNow)), serverNow)
  {
    BucketWindow(clientNow, serverNow);
    BucketOf(clientNow);
    BucketOf(serverNow);
  }

  /** A device with a working signature scheme gets a session exactly when its clock is in the
      window and the registry has its key, not revoked. */
  lemma DeviceAccepts(env: Env, st: Store, key: seq<Byte>, nonce: Bytes16, now: int, later: seq<Byte>)
    requires SignaturesVerify(env.c)
    ensures Dispatch(env, Some(st), DeviceClient(env.c, key, nonce, now) + later).session.Some? <==>
            BucketFresh(Wrap64(TimeBucket(now)), env.now) && AuthorizeStatus(st, env.c.publicKey(key)) == AUTH_OK
  {
    var pub, bucket := env.c.publicKey(key), Wrap64(TimeBucket(now));
    var r := DeviceRequest(DEVICE_AUTH, pub, nonce, bucket, env.c.sign(key, SignedMessage(pub, nonce, bucket)));
    DeviceRoundTrip(r, later);
    hide UnmarshalDevice, SignedMessage, BucketFresh, TimeBucket, AuthorizeStatus, Authorized, Reply, Sent;
  }

  // ----- registration -----

  /** A granted bootstrap records the client's key under its name, as much of it as a 64-byte field
      holds before a zero byte, or under its short ID if that is nothing; and the registry then
      authorises the key unless an earlier record of it was revoked. */
  lemma BootstrapThenAuthorize(env: Env, st: Store, token: seq<Byte>, key: seq<Byte>, name: seq<Byte>, nonce: Bytes16,
                               later: seq<Byte>) returns (k: nat)
    requires BootstrapStatus(st, Fit(token, 32), env.now) == BOOTSTRAP_OK
    ensures NameLength(name, 64, k)
    ensures var st' := Dispatch(env, Some(st), BootstrapClient(env.c, token, key, name, nonce) + later).reg.value;
            var pub := env.c.publicKey(key);
            && |st'.devices| == |st.devices| + 1 && st'.devices[|st.devices|].pubKey == pub
            && st'.devices[|st.devices|].name ==
               (if k > 0 then name[..k] else Ascii("device-") + Hex(env.c.sha(pub)[..3]))
            && AuthorizeStatus(st', pub) == (if AuthorizeStatus(st, pub) == AUTH_REVOKED then AUTH_REVOKED else AUTH_OK)
  {
    var r := BootstrapRequest(BOOTSTRAP, Fit(token, 32), env.c.publicKey(key), Fit(name, 64), nonce);
    BootstrapRoundTrip(r, later);
    k := NameSurvives(name, 64);
    hide UnmarshalBootstrap, Fit, UntilNull, Reply, Sent, Hex, Ascii;
    AppendedDevice(st.devices, NewDevice(env.c.sha, r.devicePub, UntilNull(r.name), env.now));
  }

  /** So after a granted bootstrap a device handshake with the new key, at any later time, gets a
      session if and only if the client's clock is in the server's window and no earlier record of
      the key was revoked. */
  lemma BootstrapThenConnect(env: Env, env': Env, st: Store, token: seq<Byte>, key: seq<Byte>, name: seq<Byte>,
                             nonce: Bytes16, later: seq<Byte>, nonce': Bytes16, now: int, later': seq<Byte>)
    requires BootstrapStatus(st, Fit(token, 32), env.now) == BOOTSTRAP_OK
    requires env'.c == env.c && SignaturesVerify(env.c)
    ensures var st' := Dispatch(env, Some(st), BootstrapClient(env.c, token, key, name, nonce) + later).reg;
            && st'.Some?
            && (Dispatch(env', st', DeviceClient(env.c, key, nonce', now) + later').session.Some? <==>
                  && BucketFresh(Wrap64(TimeBucket(now)), env'.now)
                  && AuthorizeStatus(st, env.c.publicKey(key)) != AUTH_REVOKED)
  {
    var _ := BootstrapThenAuthorize(env, st, token, key, name, nonce, later);
    var st' := Dispatch(env, Some(st), BootstrapClient(env.c, token, key, name, nonce) + later).reg;
    assert st'.Some? by { StillRegistry(env, st, BootstrapClient(env.c, token, key, name, nonce) + later); }
    hide Dispatch, BootstrapClient, DeviceClient, BootstrapStatus, AuthorizeStatus, BucketFresh, TimeBucket, Fit,
         SignaturesVerify;
    DeviceAccepts(env', st'.value, key, nonce', now, later');
  }

  lemma StillRegistry(env: Env, st: Store, input: seq<Byte>)
    ensures Dispatch(env, Some(st), input).reg.Some?
  {
    hide Reply, Sent, HmacValid, DeviceValid, UnmarshalHmac, UnmarshalDevice, UnmarshalBootstrap;
  }

  lemma AppendedDevice(ds: seq<Device>, d: Device)
    ensures var i := FindDevice(ds, ByKey(d.pubKey));
            FindDevice(ds + [d], ByKey(d.pubKey)) == i
  {
    var i, j := FindDevice(ds, ByKey(d.pubKey)), FindDevice(ds + [d], ByKey(d.pubKey));
    assert DeviceMatches((ds + [d])[i], ByKey(d.pubKey));
    assert forall m :: 0 <= m < i ==> (ds + [d])[m] == ds[m];
  }
}
