/** The server's device and invite registry (internal/registry/registry.go). Times are
    nanoseconds since the epoch; the hash and whether a save succeeds are parameters. */
module Registry {
  import opened Bytes
  import opened Text

  type Digest = s: seq<Byte> | |s| == 32 witness seq(32, _ => 0)

  /** SHA-256, about which nothing is assumed. */
  type Hash = seq<Byte> -> Digest

  const SECOND := 1_000_000_000

  const AUTH_OK: Byte := 0
  const AUTH_REVOKED: Byte := 2
  const AUTH_UNKNOWN: Byte := 3

  const BOOTSTRAP_OK: Byte := 0
  const BOOTSTRAP_INVALID: Byte := 1
  const BOOTSTRAP_EXPIRED: Byte := 2
  const BOOTSTRAP_USED: Byte := 3

  datatype Device = Device(pubKey: seq<Byte>, deviceId: seq<Byte>, name: seq<Byte>,
                           registeredAt: int, lastSeenAt: int, revoked: bool)

  datatype Invite = Invite(token: seq<Byte>, tokenId: seq<Byte>, name: seq<Byte>, maxUses: int, uses: int,
                           expiresAt: int, createdAt: int, revoked: bool)

  datatype Store = Store(devices: seq<Device>, invites: seq<Invite>)

  const EMPTY := Store([], [])

  function ShortDeviceId(sha: Hash, pub: seq<Byte>): seq<Byte> { Hex(sha(pub)[..3]) }
  function ShortTokenId(sha: Hash, token: seq<Byte>): seq<Byte> { Hex(sha(token)[..4]) }

  // ----- searches -----

  datatype DeviceQuery = ByKey(pub: seq<Byte>) | ById(id: seq<Byte>)
  datatype InviteQuery = ByToken(token: seq<Byte>) | ByIdPrefix(id: seq<Byte>)

  predicate DeviceMatches(d: Device, q: DeviceQuery) {
    match q case ByKey(pub) => d.pubKey == pub case ById(id) => d.deviceId == id
  }

  /** A token matches live invites only; an ID matches any invite it is a prefix of. */
  predicate InviteMatches(v: Invite, q: InviteQuery) {
    match q case ByToken(token) => !v.revoked && v.token == token case ByIdPrefix(id) => id <= v.tokenId
  }

  /** The first matching device, or the number of devices. */
  function FindDevice(ds: seq<Device>, q: DeviceQuery): (i: nat)
    ensures i <= |ds|
    ensures forall j :: 0 <= j < i ==> !DeviceMatches(ds[j], q)
    ensures i < |ds| ==> DeviceMatches(ds[i], q)
  {
    if ds == [] || DeviceMatches(ds[0], q) then 0 else 1 + FindDevice(ds[1..], q)
  }

  function FindInvite(vs: seq<Invite>, q: InviteQuery): (i: nat)
    ensures i <= |vs|
    ensures forall j :: 0 <= j < i ==> !InviteMatches(vs[j], q)
    ensures i < |vs| ==> InviteMatches(vs[i], q)
  {
    if vs == [] || InviteMatches(vs[0], q) then 0 else 1 + FindInvite(vs[1..], q)
  }

  // ----- operations on the stored data -----

  predicate Expired(v: Invite, now: int) {
    v.expiresAt != 0 && now / SECOND > v.expiresAt
  }

  /** Zero or negative limits mean single use. */
  function Limit(v: Invite): int {
    if v.maxUses <= 0 then 1 else v.maxUses
  }

  function NewDevice(sha: Hash, pub: seq<Byte>, name: seq<Byte>, now: int): Device {
    var id := ShortDeviceId(sha, pub);
    Device(pub, id, if name == [] then Ascii("device-") + id else name, now, 0, false)
  }

  function BootstrapStatus(st: Store, token: seq<Byte>, now: int): Byte {
    var i := FindInvite(st.invites, ByToken(token));
    if i == |st.invites| then BOOTSTRAP_INVALID
    else if Expired(st.invites[i], now) then BOOTSTRAP_EXPIRED
    else if st.invites[i].uses >= Limit(st.invites[i]) then BOOTSTRAP_USED
    else BOOTSTRAP_OK
  }

  function Bootstrapped(sha: Hash, st: Store, token: seq<Byte>, pub: seq<Byte>, name: seq<Byte>, now: int): Store {
    if BootstrapStatus(st, token, now) != BOOTSTRAP_OK then st
    else
      var i := FindInvite(st.invites, ByToken(token));
      Store(st.devices + [NewDevice(sha, pub, name, now)],
            st.invites[i := st.invites[i].(uses := st.invites[i].uses + 1)])
  }

  function AuthorizeStatus(st: Store, pub: seq<Byte>): Byte {
    var i := FindDevice(st.devices, ByKey(pub));
    if i == |st.devices| then AUTH_UNKNOWN
    else if st.devices[i].revoked then AUTH_REVOKED
    else AUTH_OK
  }

  function Authorized(st: Store, pub: seq<Byte>, now: int): Store {
    var i := FindDevice(st.devices, ByKey(pub));
    if AuthorizeStatus(st, pub) != AUTH_OK then st
    else st.(devices := st.devices[i := st.devices[i].(lastSeenAt := now)])
  }

  function NewInvite(sha: Hash, token: seq<Byte>, name: seq<Byte>, maxUses: int, ttl: int, now: int): Invite {
    Invite(token, ShortTokenId(sha, token), name, maxUses, 0, if ttl > 0 then (now + ttl) / SECOND else 0, now, false)
  }

  function InviteRevoked(st: Store, id: seq<Byte>): Store {
    var i := FindInvite(st.invites, ByIdPrefix(id));
    if i == |st.invites| then st else st.(invites := st.invites[i := st.invites[i].(revoked := true)])
  }

  function DeviceRevoked(st: Store, id: seq<Byte>): Store {
    var i := FindDevice(st.devices, ById(id));
    if i == |st.devices| then st else st.(devices := st.devices[i := st.devices[i].(revoked := true)])
  }

  function ActiveDevices(ds: seq<Device>): nat {
    if ds == [] then 0 else ActiveDevices(ds[..|ds| - 1]) + (if ds[|ds| - 1].revoked then 0 else 1)
  }

  // ----- what the operations answer and change -----

  /** The i-th record is the first of this key, or the first with this short ID. */
  predicate FirstOfKey(ds: seq<Device>, pub: seq<Byte>, i: nat) {
    i < |ds| && ds[i].pubKey == pub && forall j :: 0 <= j < i ==> ds[j].pubKey != pub
  }

  predicate FirstWithId(ds: seq<Device>, id: seq<Byte>, i: nat) {
    i < |ds| && ds[i].deviceId == id && forall j :: 0 <= j < i ==> ds[j].deviceId != id
  }

  /** The i-th invite is the first that can be redeemed with this token, or the first whose ID starts
      like this. */
  predicate FirstLive(vs: seq<Invite>, token: seq<Byte>, i: nat) {
    && i < |vs| && vs[i].token == token && !vs[i].revoked
    && forall j :: 0 <= j < i ==> vs[j].token != token || vs[j].revoked
  }

  predicate FirstWithPrefix(vs: seq<Invite>, id: seq<Byte>, i: nat) {
    i < |vs| && id <= vs[i].tokenId && forall j :: 0 <= j < i ==> !(id <= vs[j].tokenId)
  }

  /** The key's first record exists and is not revoked. */
  ghost predicate Enrolled(ds: seq<Device>, pub: seq<Byte>) {
    exists i: nat :: FirstOfKey(ds, pub, i) && !ds[i].revoked
  }

  /** The answer to a bootstrap request, from the invite it finds. */
  function Answer(v: Invite, now: int): Byte {
    if v.expiresAt != 0 && now / 1_000_000_000 > v.expiresAt then 2
    else if v.uses >= (if v.maxUses > 1 then v.maxUses else 1) then 3
    else 0
  }

  /** Status 1 without a live invite of the token; otherwise the first one decides: 2 past its expiry
      second, 3 when its uses are exhausted, 0 otherwise. */
  lemma BootstrapAnswers(st: Store, token: seq<Byte>, now: int)
    ensures (forall i: nat :: !FirstLive(st.invites, token, i)) <==> BootstrapStatus(st, token, now) == 1
    ensures forall i: nat :: FirstLive(st.invites, token, i) ==>
              BootstrapStatus(st, token, now) == Answer(st.invites[i], now)
  {
    var k := FindInvite(st.invites, ByToken(token));
    if k < |st.invites| {
      assert FirstLive(st.invites, token, k) by {
        assert forall j :: 0 <= j < k ==> !InviteMatches(st.invites[j], ByToken(token));
      }
    }
    forall i: nat | FirstLive(st.invites, token, i) ensures k == i {
      assert InviteMatches(st.invites[i], ByToken(token));
    }
  }

  /** A grant consumes one use of exactly that invite and appends one record for the key; any other
      answer changes nothing. */
  lemma BootstrapChanges(sha: Hash, st: Store, token: seq<Byte>, pub: seq<Byte>, name: seq<Byte>, now: int)
    ensures var st' := Bootstrapped(sha, st, token, pub, name, now);
            if BootstrapStatus(st, token, now) != 0 then st' == st
            else
              && |st'.invites| == |st.invites|
              && (forall i: nat :: i < |st.invites| ==>
                    st'.invites[i] == if FirstLive(st.invites, token, i) then
                                        st.invites[i].(uses := st.invites[i].uses + 1) else st.invites[i])
              && |st'.devices| == |st.devices| + 1 && st.devices <= st'.devices
              && st'.devices[|st.devices|] ==
                 Device(pub, Hex(sha(pub)[..3]), if name == [] then Ascii("device-") + Hex(sha(pub)[..3]) else name,
                        now, 0, false)
  {
    var k := FindInvite(st.invites, ByToken(token));
    hide Hex, Ascii;
    if k < |st.invites| {
      assert forall j :: 0 <= j < k ==> !InviteMatches(st.invites[j], ByToken(token));
      assert InviteMatches(st.invites[k], ByToken(token));
      assert forall i: nat :: FirstLive(st.invites, token, i) <==> i == k;
    }
  }

  /** Status 3 for an unknown key; otherwise its first record decides, 2 when revoked and 0 when not. A
      key that is let in has the time it was last seen updated, and nothing else changes. */
  lemma AuthorizeExact(st: Store, pub: seq<Byte>, now: int)
    ensures AuthorizeStatus(st, pub) == 0 <==> Enrolled(st.devices, pub)
    ensures AuthorizeStatus(st, pub) == 3 <==> forall i :: 0 <= i < |st.devices| ==> st.devices[i].pubKey != pub
    ensures AuthorizeStatus(st, pub) in {0, 2, 3}
    ensures var st' := Authorized(st, pub, now);
            && st'.invites == st.invites && |st'.devices| == |st.devices|
            && forall i: nat :: i < |st.devices| ==>
                 st'.devices[i] == if FirstOfKey(st.devices, pub, i) && !st.devices[i].revoked then
                                     st.devices[i].(lastSeenAt := now) else st.devices[i]
  {
    var k := FindDevice(st.devices, ByKey(pub));
    assert forall j :: 0 <= j < k ==> !DeviceMatches(st.devices[j], ByKey(pub));
    if k < |st.devices| {
      assert DeviceMatches(st.devices[k], ByKey(pub));
      assert forall i: nat :: FirstOfKey(st.devices, pub, i) <==> i == k;
    }
  }

  /** Each revocation marks exactly the first record that matches and leaves all others alone. */
  lemma RevokeChanges(st: Store, id: seq<Byte>)
    ensures var st' := DeviceRevoked(st, id);
            && st'.invites == st.invites && |st'.devices| == |st.devices|
            && forall i: nat :: i < |st.devices| ==>
                 st'.devices[i] == if FirstWithId(st.devices, id, i) then st.devices[i].(revoked := true)
                                   else st.devices[i]
    ensures var st' := InviteRevoked(st, id);
            && st'.devices == st.devices && |st'.invites| == |st.invites|
            && forall i: nat :: i < |st.invites| ==>
                 st'.invites[i] == if FirstWithPrefix(st.invites, id, i) then st.invites[i].(revoked := true)
                                   else st.invites[i]
  {
    var d, v := FindDevice(st.devices, ById(id)), FindInvite(st.invites, ByIdPrefix(id));
    assert forall j :: 0 <= j < d ==> !DeviceMatches(st.devices[j], ById(id));
    assert forall j :: 0 <= j < v ==> !InviteMatches(st.invites[j], ByIdPrefix(id));
    if d < |st.devices| {
      assert DeviceMatches(st.devices[d], ById(id));
    }
    if v < |st.invites| {
      assert InviteMatches(st.invites[v], ByIdPrefix(id));
    }
  }

  /** The indices of the records that are not revoked. */
  function ActiveIndices(ds: seq<Device>): set<int> {
    set i | 0 <= i < |ds| && !ds[i].revoked
  }

  lemma {:induction false} ActiveCount(ds: seq<Device>)
    ensures ActiveDevices(ds) == |ActiveIndices(ds)|
  {
    if ds != [] {
      var n := |ds| - 1;
      ActiveCount(ds[..n]);
      assert ActiveIndices(ds) == ActiveIndices(ds[..n]) + (if ds[n].revoked then {} else {n});
    } else {
      assert ActiveIndices(ds) == {};
    }
  }

  // ----- the registry object -----

  /** The registry of one server process. `file` is the saved snapshot, None before the first
      save; saving replaces it whole or leaves it alone. */
  class Registry {
    const sha: Hash
    var devices: seq<Device>
    var invites: seq<Invite>
    var file: Option<Store>

    ghost function Data(): Store
      reads this
    {
      Store(devices, invites)
    }

    constructor (sha: Hash, file: Option<Store>)
      ensures this.sha == sha && this.file == file
      ensures Data() == if file.Some? then file.value else EMPTY
    {
      this.sha := sha;
      this.file := file;
      devices := if file.Some? then file.value.devices else [];
      invites := if file.Some? then file.value.invites else [];
    }

    method Save(ok: bool)
      modifies this`file
      ensures file == if ok then Some(Data()) else old(file)
    {
      if ok {
        file := Some(Store(devices, invites));
      }
    }

    method Bootstrap(token: seq<Byte>, pub: seq<Byte>, name: seq<Byte>, now: int, saveOk: bool)
      returns (status: Byte, failed: bool)
      modifies this
      ensures status == BootstrapStatus(old(Data()), token, now)
      ensures Data() == Bootstrapped(sha, old(Data()), token, pub, name, now)
      ensures failed == (status == BOOTSTRAP_OK && !saveOk)
      ensures file == if status == BOOTSTRAP_OK && saveOk then Some(Data()) else old(file)
    {
      hide NewDevice;
      var i := 0;
      while i < |invites| && !InviteMatches(invites[i], ByToken(token))
        invariant 0 <= i <= |invites|
        invariant forall j :: 0 <= j < i ==> !InviteMatches(invites[j], ByToken(token))
      {
        i := i + 1;
      }
      assert i == FindInvite(invites, ByToken(token));
      if i == |invites| {
        return BOOTSTRAP_INVALID, false;
      }
      var found := invites[i];
      if Expired(found, now) {
        return BOOTSTRAP_EXPIRED, false;
      }
      var maxUses := found.maxUses;
      if maxUses <= 0 {
        maxUses := 1;
      }
      if found.uses >= maxUses {
        return BOOTSTRAP_USED, false;
      }
      devices := devices + [NewDevice(sha, pub, name, now)];
      invites := invites[i := found.(uses := found.uses + 1)];
      Save(saveOk);
      if !saveOk {
        return 0, true;
      }
      return BOOTSTRAP_OK, false;
    }

    method AuthorizeDevice(pub: seq<Byte>, now: int, saveOk: bool) returns (status: Byte)
      modifies this
      ensures status == AuthorizeStatus(old(Data()), pub)
      ensures Data() == Authorized(old(Data()), pub, now)
      ensures file == if status == AUTH_OK && saveOk then Some(Data()) else old(file)
    {
      var i := 0;
      while i < |devices| && devices[i].pubKey != pub
        invariant 0 <= i <= |devices|
        invariant forall j :: 0 <= j < i ==> !DeviceMatches(devices[j], ByKey(pub))
      {
        i := i + 1;
      }
      assert i == FindDevice(devices, ByKey(pub));
      if i == |devices| {
        return AUTH_UNKNOWN;
      }
      if devices[i].revoked {
        return AUTH_REVOKED;
      }
      devices := devices[i := devices[i].(lastSeenAt := now)];
      Save(saveOk);
      return AUTH_OK;
    }

    method CreateInvite(token: seq<Byte>, name: seq<Byte>, maxUses: int, ttl: int, now: int, saveOk: bool)
      returns (rec: Option<Invite>)
      modifies this
      ensures Data() == old(Data()).(invites := old(invites) + [NewInvite(sha, token, name, maxUses, ttl, now)])
      ensures rec == if saveOk then Some(NewInvite(sha, token, name, maxUses, ttl, now)) else None
      ensures file == if saveOk then Some(Data()) else old(file)
    {
      var v := NewInvite(sha, token, name, maxUses, ttl, now);
      invites := invites + [v];
      Save(saveOk);
      rec := if saveOk then Some(v) else None;
    }

    method RevokeInvite(id: seq<Byte>, saveOk: bool) returns (ok: bool)
      modifies this
      ensures Data() == InviteRevoked(old(Data()), id)
      ensures ok == (FindInvite(old(invites), ByIdPrefix(id)) < |old(invites)| && saveOk)
      ensures file == if ok then Some(Data()) else old(file)
    {
      var i := 0;
      while i < |invites| && !(id <= invites[i].tokenId)
        invariant 0 <= i <= |invites|
        invariant forall j :: 0 <= j < i ==> !InviteMatches(invites[j], ByIdPrefix(id))
      {
        i := i + 1;
      }
      assert i == FindInvite(invites, ByIdPrefix(id));
      if i == |invites| {
        return false;
      }
      invites := invites[i := invites[i].(revoked := true)];
      Save(saveOk);
      return saveOk;
    }

    method RevokeDevice(id: seq<Byte>, saveOk: bool) returns (ok: bool)
      modifies this
      ensures Data() == DeviceRevoked(old(Data()), id)
      ensures ok == (FindDevice(old(devices), ById(id)) < |old(devices)| && saveOk)
      ensures file == if ok then Some(Data()) else old(file)
    {
      var i := 0;
      while i < |devices| && devices[i].deviceId != id
        invariant 0 <= i <= |devices|
        invariant forall j :: 0 <= j < i ==> !DeviceMatches(devices[j], ById(id))
      {
        i := i + 1;
      }
      assert i == FindDevice(devices, ById(id));
      if i == |devices| {
        return false;
      }
      devices := devices[i := devices[i].(revoked := true)];
      Save(saveOk);
      return saveOk;
    }

    method DeviceCount() returns (n: nat)
      ensures n == |ActiveIndices(devices)|
    {
      n := 0;
      for i := 0 to |devices|
        invariant n == ActiveDevices(devices[..i])
      {
        assert devices[..i + 1][..i] == devices[..i];
        if !devices[i].revoked {
          n := n + 1;
        }
      }
      assert devices[..|devices|] == devices;
      ActiveCount(devices);
    }
  }

  /** What reading the registry file gives: no such file, a failure to read or parse it, or the
      stored data. */
  datatype FileRead = Missing | Unreadable | Contents(store: Store)

  /** Load: the saved snapshot, an empty registry when there is no file, no registry on an error. */
  method Load(sha: Hash, read: FileRead) returns (r: Registry?)
    ensures r == null <==> read.Unreadable?
    ensures r != null ==> fresh(r) && r.sha == sha
    ensures r != null ==> r.Data() == (if read.Contents? then read.store else EMPTY)
    ensures r != null ==> r.file == (if read.Contents? then Some(read.store) else None)
  {
    match read
    case Missing => r := new Registry(sha, None);
    case Unreadable => r := null;
    case Contents(st) => r := new Registry(sha, Some(st));
  }
}
