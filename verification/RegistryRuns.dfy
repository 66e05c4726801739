/** The registry over whole runs: requests, saves that may fail, and restarts that load the last
    saved snapshot. */
module RegistryRuns {
  import opened Bytes
  import opened Registry
  import opened Text

  datatype Event =
    | Bootstrap(token: seq<Byte>, pub: seq<Byte>, name: seq<Byte>, now: int, saveOk: bool)
    | Authorize(pub: seq<Byte>, now: int, saveOk: bool)
    | CreateInvite(token: seq<Byte>, name: seq<Byte>, maxUses: int, ttl: int, now: int, saveOk: bool)
    | RevokeInvite(id: seq<Byte>, saveOk: bool)
    | RevokeDevice(id: seq<Byte>, saveOk: bool)
    | Restart

  /** Memory, the saved file, and every token ever issued. */
  datatype World = World(mem: Store, file: Option<Store>, issued: set<seq<Byte>>)

  const START := World(EMPTY, None, {})

  /** What a restart would load. */
  function Saved(w: World): Store {
    if w.file.Some? then w.file.value else EMPTY
  }

  /** Tokens are random; a new one differs from all earlier ones. */
  predicate Legal(w: World, e: Event) {
    e.CreateInvite? ==> e.token !in w.issued
  }

  function Memory(sha: Hash, w: World, e: Event): Store {
    match e
    case Bootstrap(token, pub, name, now, _) => Bootstrapped(sha, w.mem, token, pub, name, now)
    case Authorize(pub, now, _) => Authorized(w.mem, pub, now)
    case CreateInvite(token, name, maxUses, ttl, now, _) =>
      w.mem.(invites := w.mem.invites + [NewInvite(sha, token, name, maxUses, ttl, now)])
    case RevokeInvite(id, _) => InviteRevoked(w.mem, id)
    case RevokeDevice(id, _) => DeviceRevoked(w.mem, id)
    case Restart => Saved(w)
  }

  /** Whether the event ends in a successful save. */
  predicate Saves(w: World, e: Event) {
    match e
    case Bootstrap(token, _, _, now, ok) => BootstrapStatus(w.mem, token, now) == BOOTSTRAP_OK && ok
    case Authorize(pub, _, ok) => AuthorizeStatus(w.mem, pub) == AUTH_OK && ok
    case CreateInvite(_, _, _, _, _, ok) => ok
    case RevokeInvite(id, ok) => FindInvite(w.mem.invites, ByIdPrefix(id)) < |w.mem.invites| && ok
    case RevokeDevice(id, ok) => FindDevice(w.mem.devices, ById(id)) < |w.mem.devices| && ok
    case Restart => false
  }

  function Next(sha: Hash, w: World, e: Event): World {
    var mem := Memory(sha, w, e);
    World(mem, if Saves(w, e) then Some(mem) else w.file,
          if e.CreateInvite? then w.issued + {e.token} else w.issued)
  }

  /** One event handled by a registry object: what happens to memory and file is the step above. */
  method Handle(reg: Registry, e: Event, w: World) returns (reg': Registry)
    requires w.mem == reg.Data() && w.file == reg.file
    modifies reg
    ensures reg' == reg || fresh(reg')
    ensures reg'.sha == reg.sha
    ensures var w' := Next(reg.sha, w, e); reg'.Data() == w'.mem && reg'.file == w'.file
  {
    reg' := reg;
    match e
    case Bootstrap(token, pub, name, now, saveOk) =>
      var _, _ := reg.Bootstrap(token, pub, name, now, saveOk);
    case Authorize(pub, now, saveOk) =>
      var _ := reg.AuthorizeDevice(pub, now, saveOk);
    case CreateInvite(token, name, maxUses, ttl, now, saveOk) =>
      var _ := reg.CreateInvite(token, name, maxUses, ttl, now, saveOk);
    case RevokeInvite(id, saveOk) =>
      var _ := reg.RevokeInvite(id, saveOk);
    case RevokeDevice(id, saveOk) =>
      var _ := reg.RevokeDevice(id, saveOk);
    case Restart =>
      var loaded := Load(reg.sha, if reg.file.Some? then Contents(reg.file.value) else Missing);
      reg' := loaded;
  }

  predicate LegalRun(sha: Hash, w: World, run: seq<Event>)
    decreases |run|
  {
    run == [] || (Legal(w, run[0]) && LegalRun(sha, Next(sha, w, run[0]), run[1..]))
  }

  function Exec(sha: Hash, w: World, run: seq<Event>): World
    decreases |run|
  {
    if run == [] then w else Exec(sha, Next(sha, w, run[0]), run[1..])
  }

  // ----- use accounting -----

  function SumUses(vs: seq<Invite>): int {
    if vs == [] then 0 else vs[0].uses + SumUses(vs[1..])
  }

  /** Uses consumed of one token. */
  function UsesOf(vs: seq<Invite>, token: seq<Byte>): int {
    if vs == [] then 0 else (if vs[0].token == token then vs[0].uses else 0) + UsesOf(vs[1..], token)
  }

  lemma {:induction false} UpdateInvite(vs: seq<Invite>, i: nat, v: Invite, token: seq<Byte>)
    requires i < |vs| && v.token == vs[i].token
    ensures SumUses(vs[i := v]) == SumUses(vs) - vs[i].uses + v.uses
    ensures UsesOf(vs[i := v], token) ==
            UsesOf(vs, token) + (if v.token == token then v.uses - vs[i].uses else 0)
  {
    if i == 0 {
      assert vs[i := v][1..] == vs[1..];
    } else {
      assert vs[i := v][1..] == vs[1..][i - 1 := v];
      UpdateInvite(vs[1..], i - 1, v, token);
    }
  }

  lemma {:induction false} AppendInvite(vs: seq<Invite>, v: Invite, token: seq<Byte>)
    ensures SumUses(vs + [v]) == SumUses(vs) + v.uses
    ensures UsesOf(vs + [v], token) == UsesOf(vs, token) + (if v.token == token then v.uses else 0)
  {
    if vs == [] {
      assert vs + [v] == [v];
      assert [v][1..] == [];
    } else {
      assert (vs + [v])[1..] == vs[1..] + [v];
      AppendInvite(vs[1..], v, token);
    }
  }

  /** Every invite is within its limit, tokens and IDs are sound, and there is one device record
      per use consumed. */
  ghost predicate Accounted(sha: Hash, st: Store) {
    && |st.devices| == SumUses(st.invites)
    && (forall i :: 0 <= i < |st.invites| ==> 0 <= st.invites[i].uses <= Limit(st.invites[i]))
    && (forall i, j :: 0 <= i < j < |st.invites| ==> st.invites[i].token != st.invites[j].token)
    && (forall i :: 0 <= i < |st.devices| ==> st.devices[i].deviceId == ShortDeviceId(sha, st.devices[i].pubKey))
  }

  ghost predicate Issued(st: Store, issued: set<seq<Byte>>) {
    forall i :: 0 <= i < |st.invites| ==> st.invites[i].token in issued
  }

  ghost predicate WorldInv(sha: Hash, w: World) {
    && Accounted(sha, w.mem) && Accounted(sha, Saved(w))
    && Issued(w.mem, w.issued) && Issued(Saved(w), w.issued)
  }

  lemma MemoryAccounted(sha: Hash, w: World, e: Event)
    requires WorldInv(sha, w) && Legal(w, e)
    ensures Accounted(sha, Memory(sha, w, e))
  {
    match e
    case Bootstrap(token, pub, name, now, _) => BootstrapAccounted(sha, w.mem, token, pub, name, now);
    case Authorize(pub, now, _) => DevicesAccounted(sha, w.mem, Memory(sha, w, e));
    case CreateInvite(token, name, maxUses, ttl, now, _) =>
      CreateAccounted(sha, w.mem, NewInvite(sha, token, name, maxUses, ttl, now));
    case RevokeInvite(id, _) => RevokeAccounted(sha, w.mem, id);
    case RevokeDevice(id, _) => DevicesAccounted(sha, w.mem, Memory(sha, w, e));
    case Restart =>
  }

  lemma DevicesAccounted(sha: Hash, st: Store, st': Store)
    requires Accounted(sha, st) && st'.invites == st.invites && |st'.devices| == |st.devices|
    requires forall i :: 0 <= i < |st.devices| ==>
               st'.devices[i].pubKey == st.devices[i].pubKey && st'.devices[i].deviceId == st.devices[i].deviceId
    ensures Accounted(sha, st')
  {
  }

  lemma CreateAccounted(sha: Hash, st: Store, v: Invite)
    requires Accounted(sha, st) && v.uses == 0
    requires forall i :: 0 <= i < |st.invites| ==> st.invites[i].token != v.token
    ensures Accounted(sha, st.(invites := st.invites + [v]))
  {
    AppendInvite(st.invites, v, v.token);
  }

  lemma RevokeAccounted(sha: Hash, st: Store, id: seq<Byte>)
    requires Accounted(sha, st)
    ensures Accounted(sha, InviteRevoked(st, id))
  {
    var i := FindInvite(st.invites, ByIdPrefix(id));
    if i < |st.invites| {
      UpdateInvite(st.invites, i, st.invites[i].(revoked := true), []);
    }
  }

  lemma BootstrapAccounted(sha: Hash, st: Store, token: seq<Byte>, pub: seq<Byte>, name: seq<Byte>, now: int)
    requires Accounted(sha, st)
    ensures Accounted(sha, Bootstrapped(sha, st, token, pub, name, now))
  {
    var i := FindInvite(st.invites, ByToken(token));
    if BootstrapStatus(st, token, now) == BOOTSTRAP_OK {
      UpdateInvite(st.invites, i, st.invites[i].(uses := st.invites[i].uses + 1), token);
    }
  }

  lemma NextInv(sha: Hash, w: World, e: Event)
    requires WorldInv(sha, w) && Legal(w, e)
    ensures WorldInv(sha, Next(sha, w, e))
  {
    MemoryAccounted(sha, w, e);
    hide Accounted;
  }

  lemma {:induction false} RunInv(sha: Hash, w: World, run: seq<Event>)
    requires WorldInv(sha, w) && LegalRun(sha, w, run)
    ensures WorldInv(sha, Exec(sha, w, run))
    decreases |run|
  {
    if run != [] {
      NextInv(sha, w, run[0]);
      RunInv(sha, Next(sha, w, run[0]), run[1..]);
    }
  }

  /** Use accounting over every run from an empty registry, failed saves and restarts included:
      each invite is used at most max(1, MaxUses) times and the device records number exactly the
      uses consumed. */
  lemma UseAccounting(sha: Hash, run: seq<Event>)
    requires LegalRun(sha, START, run)
    ensures var st := Exec(sha, START, run).mem;
            && |st.devices| == SumUses(st.invites)
            && forall i :: 0 <= i < |st.invites| ==>
                 0 <= st.invites[i].uses <= (if st.invites[i].maxUses > 1 then st.invites[i].maxUses else 1)
  {
    RunInv(sha, START, run);
  }

  // ----- replies -----

  /** The status byte sent in reply to a bootstrap request. */
  function Reply(w: World, e: Event): Option<Byte> {
    if e.Bootstrap? then Some(BootstrapStatus(w.mem, e.token, e.now)) else None
  }

  /** Status 0 is replied exactly when a device was appended and a use of that token consumed,
      whether or not the save succeeded; any other reply changes nothing. */
  lemma GrantIffRecorded(sha: Hash, w: World, e: Event)
    requires e.Bootstrap?
    ensures var w' := Next(sha, w, e);
            && (Reply(w, e) == Some(BOOTSTRAP_OK) <==> |w'.mem.devices| == |w.mem.devices| + 1)
            && (Reply(w, e) == Some(BOOTSTRAP_OK) <==>
                  UsesOf(w'.mem.invites, e.token) == UsesOf(w.mem.invites, e.token) + 1)
            && (Reply(w, e) != Some(BOOTSTRAP_OK) ==> w' == w)
            && (Reply(w, e) == Some(BOOTSTRAP_OK) ==> w'.mem.devices[|w.mem.devices|].pubKey == e.pub)
  {
    var i := FindInvite(w.mem.invites, ByToken(e.token));
    if i < |w.mem.invites| {
      var v := w.mem.invites[i];
      UpdateInvite(w.mem.invites, i, v.(uses := v.uses + 1), e.token);
    }
  }

  /** The event is a bootstrap request for this token that is answered with status 0. */
  predicate IsGrant(w: World, e: Event, token: seq<Byte>) {
    e.Bootstrap? && e.token == token && Reply(w, e) == Some(BOOTSTRAP_OK)
  }

  /** How many status-0 replies a run sends for a token. */
  function Grants(sha: Hash, w: World, run: seq<Event>, token: seq<Byte>): nat
    decreases |run|
  {
    if run == [] then 0
    else (if IsGrant(w, run[0], token) then 1 else 0) + Grants(sha, Next(sha, w, run[0]), run[1..], token)
  }

  /** Uses of a token that restarts forgot because they were not saved. */
  function Forgotten(sha: Hash, w: World, run: seq<Event>, token: seq<Byte>): int
    decreases |run|
  {
    if run == [] then 0
    else
      (if run[0].Restart? then UsesOf(w.mem.invites, token) - UsesOf(Saved(w).invites, token) else 0)
      + Forgotten(sha, Next(sha, w, run[0]), run[1..], token)
  }

  lemma StepUses(sha: Hash, w: World, e: Event, token: seq<Byte>)
    ensures UsesOf(Memory(sha, w, e).invites, token) == UsesOf(w.mem.invites, token)
            + (if IsGrant(w, e, token) then 1 else 0)
            - (if e.Restart? then UsesOf(w.mem.invites, token) - UsesOf(Saved(w).invites, token) else 0)
  {
    var vs := w.mem.invites;
    match e
    case Bootstrap(t, _, _, now, _) =>
      var i := FindInvite(vs, ByToken(t));
      if BootstrapStatus(w.mem, t, now) == BOOTSTRAP_OK {
        UpdateInvite(vs, i, vs[i].(uses := vs[i].uses + 1), token);
      }
    case CreateInvite(t, name, maxUses, ttl, now, _) =>
      AppendInvite(vs, NewInvite(sha, t, name, maxUses, ttl, now), token);
    case RevokeInvite(id, _) =>
      var i := FindInvite(vs, ByIdPrefix(id));
      if i < |vs| {
        UpdateInvite(vs, i, vs[i].(revoked := true), token);
      }
    case _ =>
  }

  /** Conservation, for every run whatever fails: status-0 replies for a token equal the uses now
      on record plus the uses restarts forgot. */
  lemma {:induction false} GrantsConserved(sha: Hash, w: World, run: seq<Event>, token: seq<Byte>)
    ensures UsesOf(w.mem.invites, token) + Grants(sha, w, run, token) ==
            UsesOf(Exec(sha, w, run).mem.invites, token) + Forgotten(sha, w, run, token)
    decreases |run|
  {
    if run != [] {
      StepUses(sha, w, run[0], token);
      GrantsConserved(sha, Next(sha, w, run[0]), run[1..], token);
    }
  }

  // ----- grants that a restart forgets -----

  /** A restart comes before the next successful save, that of the first event included. */
  predicate Wiped(sha: Hash, w: World, run: seq<Event>)
    decreases |run|
  {
    run != [] && (run[0].Restart? || (!Saves(w, run[0]) && Wiped(sha, Next(sha, w, run[0]), run[1..])))
  }

  /** How many status-0 replies for a token are followed by a restart before any successful save. */
  function ForgottenGrants(sha: Hash, w: World, run: seq<Event>, token: seq<Byte>): nat
    decreases |run|
  {
    if run == [] then 0
    else
      (if IsGrant(w, run[0], token) && Wiped(sha, w, run) then 1 else 0)
      + ForgottenGrants(sha, Next(sha, w, run[0]), run[1..], token)
  }

  /** How many status-0 replies for a token are sent although the save failed. */
  function UnsavedGrants(sha: Hash, w: World, run: seq<Event>, token: seq<Byte>): nat
    decreases |run|
  {
    if run == [] then 0
    else
      (if IsGrant(w, run[0], token) && !run[0].saveOk then 1 else 0)
      + UnsavedGrants(sha, Next(sha, w, run[0]), run[1..], token)
  }

  /** What restarts forget, event by event: the unsaved uses the run starts with, if a restart comes
      before a save, and the forgotten grants. */
  lemma {:induction false} ForgottenEvents(sha: Hash, w: World, run: seq<Event>, token: seq<Byte>)
    ensures Forgotten(sha, w, run, token) ==
            ForgottenGrants(sha, w, run, token)
            + (if Wiped(sha, w, run) then UsesOf(w.mem.invites, token) - UsesOf(Saved(w).invites, token) else 0)
    decreases |run|
  {
    if run != [] {
      StepUses(sha, w, run[0], token);
      ForgottenEvents(sha, Next(sha, w, run[0]), run[1..], token);
      hide UsesOf, Memory;
    }
  }

  /** Only grants whose own save failed can be forgotten. */
  lemma {:induction false} ForgottenUnsaved(sha: Hash, w: World, run: seq<Event>, token: seq<Byte>)
    ensures ForgottenGrants(sha, w, run, token) <= UnsavedGrants(sha, w, run, token)
    decreases |run|
  {
    if run != [] {
      ForgottenUnsaved(sha, Next(sha, w, run[0]), run[1..], token);
    }
  }

  lemma {:induction false} UsesOfUnique(vs: seq<Invite>, i: nat, token: seq<Byte>)
    requires forall j, k :: 0 <= j < k < |vs| ==> vs[j].token != vs[k].token
    ensures i < |vs| && vs[i].token == token ==> UsesOf(vs, token) == vs[i].uses
    ensures (forall j :: 0 <= j < |vs| ==> vs[j].token != token) ==> UsesOf(vs, token) == 0
  {
    if vs != [] {
      UsesOfUnique(vs[1..], if i > 0 then i - 1 else |vs|, token);
      if i == 0 && vs[0].token == token {
        UsesOfUnique(vs[1..], |vs|, token);
      }
    }
  }

  /** The exact law behind the limit, for every run from an empty registry and every token: the
      status-0 replies are the uses on record plus the forgotten grants, which are no more than the
      grants whose save failed. */
  lemma GrantsExact(sha: Hash, run: seq<Event>, token: seq<Byte>)
    ensures Grants(sha, START, run, token) ==
            UsesOf(Exec(sha, START, run).mem.invites, token) + ForgottenGrants(sha, START, run, token)
    ensures ForgottenGrants(sha, START, run, token) <= UnsavedGrants(sha, START, run, token)
  {
    GrantsConserved(sha, START, run, token);
    ForgottenEvents(sha, START, run, token);
    ForgottenUnsaved(sha, START, run, token);
  }

  /** With distinct tokens, the status-0 replies for a recorded invite exceed its limit of
      max(1, MaxUses) by at most the forgotten grants, and do so exactly when these are more than
      the uses left on the record; a token without a record got none but forgotten ones. So a token
      none of whose grants failed to be saved stays within its limit across any number of restarts,
      whatever happens to other saves. */
  lemma GrantsLimited(sha: Hash, run: seq<Event>, token: seq<Byte>)
    requires LegalRun(sha, START, run)
    ensures var vs := Exec(sha, START, run).mem.invites;
            var grants, forgotten := Grants(sha, START, run, token), ForgottenGrants(sha, START, run, token);
            && (forall i :: 0 <= i < |vs| && vs[i].token == token ==>
                  && grants <= Limit(vs[i]) + forgotten
                  && (grants > Limit(vs[i]) <==> forgotten > Limit(vs[i]) - vs[i].uses)
                  && (UnsavedGrants(sha, START, run, token) == 0 ==> grants <= Limit(vs[i])))
            && ((forall i :: 0 <= i < |vs| ==> vs[i].token != token) ==> grants == forgotten)
  {
    RunInv(sha, START, run);
    GrantsExact(sha, run, token);
    var vs := Exec(sha, START, run).mem.invites;
    UsesOfUnique(vs, |vs|, token);
    hide Exec, Grants, ForgottenGrants, UnsavedGrants, UsesOf;
    forall i | 0 <= i < |vs| && vs[i].token == token
      ensures UsesOf(vs, token) == vs[i].uses <= Limit(vs[i])
    {
      UsesOfUnique(vs, i, token);
    }
  }

  /** The condition is needed: one failed bootstrap save followed by a restart grants a single-use
      token twice. */
  lemma DoubleGrant(sha: Hash, token: seq<Byte>, pub: seq<Byte>)
    ensures var run := [CreateInvite(token, [], 1, 0, 0, true), Bootstrap(token, pub, [], 0, false), Restart,
                        Bootstrap(token, pub, [], 0, true)];
            LegalRun(sha, START, run) && Grants(sha, START, run, token) == 2
  {
    var c, b, r, b' := CreateInvite(token, [], 1, 0, 0, true), Bootstrap(token, pub, [], 0, false), Restart,
      Bootstrap(token, pub, [], 0, true);
    var v := NewInvite(sha, token, [], 1, 0, 0);
    var w1 := Next(sha, START, c);
    assert [] + [v] == [v];
    assert w1.mem == Store([], [v]) && w1.file == Some(w1.mem);
    assert FindInvite([v], ByToken(token)) == 0;
    var w2 := Next(sha, w1, b);
    assert Reply(w1, b) == Some(BOOTSTRAP_OK) && w2.file == w1.file;
    var w3 := Next(sha, w2, r);
    assert w3.mem == w1.mem && Reply(w3, b') == Some(BOOTSTRAP_OK);
    var run := [c, b, r, b'];
    assert run[1..] == [b, r, b'] && run[1..][1..] == [r, b'] && run[1..][1..][1..] == [b'];
    var w4 := Next(sha, w3, b');
    assert Grants(sha, w4, [], token) == 0 && LegalRun(sha, w4, []);
    assert [b'][1..] == [];
    assert Grants(sha, w3, [b'], token) == 1 && LegalRun(sha, w3, [b']);
    assert Grants(sha, w2, [r, b'], token) == 1 && LegalRun(sha, w2, [r, b']);
    assert Grants(sha, w1, [b, r, b'], token) == 2 && LegalRun(sha, w1, [b, r, b']);
  }

  // ----- the file -----

  lemma {:induction false} ExecSnoc(sha: Hash, w: World, run: seq<Event>, e: Event)
    ensures Exec(sha, w, run + [e]) == Next(sha, Exec(sha, w, run), e)
    decreases |run|
  {
    hide Next;
    if run == [] {
      assert run + [e] == [e];
      assert Exec(sha, Next(sha, w, e), []) == Next(sha, w, e);
    } else {
      assert (run + [e])[1..] == run[1..] + [e];
      ExecSnoc(sha, Next(sha, w, run[0]), run[1..], e);
    }
  }

  /** Whether the i-th event of a run ends in a successful save. */
  predicate SavesAt(sha: Hash, w: World, run: seq<Event>, i: nat)
    requires i < |run|
  {
    Saves(Exec(sha, w, run[..i]), run[i])
  }

  /** The file is always memory as it was right after the last successful save. */
  lemma {:induction false} FileIsLastSave(sha: Hash, w: World, run: seq<Event>) returns (k: nat)
    ensures k <= |run| && forall i :: k <= i < |run| ==> !SavesAt(sha, w, run, i)
    ensures k == 0 ==> Exec(sha, w, run).file == w.file
    ensures k > 0 ==> SavesAt(sha, w, run, k - 1) && Exec(sha, w, run).file == Some(Exec(sha, w, run[..k]).mem)
    decreases |run|
  {
    if run == [] {
      k := 0;
    } else {
      var last := |run| - 1;
      var init, e := run[..last], run[last];
      assert run == init + [e];
      ExecSnoc(sha, w, init, e);
      assert forall i :: 0 <= i <= last ==> run[..i] == init[..i];
      if SavesAt(sha, w, run, last) {
        k := |run|;
        assert run[..k] == run && init[..last] == init;
      } else {
        k := FileIsLastSave(sha, w, init);
        assert forall i :: 0 <= i < last ==> SavesAt(sha, w, run, i) == SavesAt(sha, w, init, i);
        assert init[..last] == init;
      }
    }
  }

  // ----- where records come from -----

  /** Invite v is as event e created it, but for its uses and its revocation. */
  predicate Created(sha: Hash, e: Event, v: Invite) {
    && e.CreateInvite?
    && v.token == e.token && v.tokenId == Hex(sha(e.token)[..4]) && v.name == e.name
    && v.maxUses == e.maxUses && v.createdAt == e.now
    && v.expiresAt == if e.ttl > 0 then (e.now + e.ttl) / 1_000_000_000 else 0
  }

  ghost predicate InRun(sha: Hash, v: Invite, run: seq<Event>) {
    exists j :: 0 <= j < |run| && Created(sha, run[j], v)
  }

  ghost predicate FromRun(sha: Hash, vs: seq<Invite>, run: seq<Event>) {
    forall i :: 0 <= i < |vs| ==> InRun(sha, vs[i], run)
  }

  lemma FromLonger(sha: Hash, vs: seq<Invite>, run: seq<Event>, e: Event)
    requires FromRun(sha, vs, run)
    ensures FromRun(sha, vs, run + [e])
  {
    forall i | 0 <= i < |vs| ensures InRun(sha, vs[i], run + [e]) {
      var j :| 0 <= j < |run| && Created(sha, run[j], vs[i]);
      assert (run + [e])[j] == run[j];
    }
  }

  lemma FromGrown(sha: Hash, vs: seq<Invite>, vs': seq<Invite>, run: seq<Event>)
    requires FromRun(sha, vs, run) && |vs'| == |vs|
    requires forall i :: 0 <= i < |vs| ==> InviteGrows(vs[i], vs'[i])
    ensures FromRun(sha, vs', run)
  {
    forall i | 0 <= i < |vs'| ensures InRun(sha, vs'[i], run) {
      assert InRun(sha, vs[i], run) && InviteGrows(vs[i], vs'[i]);
      var j :| 0 <= j < |run| && Created(sha, run[j], vs[i]);
      assert Created(sha, run[j], vs'[i]);
    }
  }

  lemma MemoryOrigins(sha: Hash, w: World, run: seq<Event>, e: Event)
    requires FromRun(sha, w.mem.invites, run) && FromRun(sha, Saved(w).invites, run)
    ensures FromRun(sha, Memory(sha, w, e).invites, run + [e])
  {
    var vs, vs' := w.mem.invites, Memory(sha, w, e).invites;
    FromLonger(sha, vs, run, e);
    FromLonger(sha, Saved(w).invites, run, e);
    if e.CreateInvite? {
      hide FromRun, Hex;
      var v := NewInvite(sha, e.token, e.name, e.maxUses, e.ttl, e.now);
      assert Created(sha, e, v);
      FromAppended(sha, vs, v, run + [e], |run|);
    } else if !e.Restart? {
      MemoryGrows(sha, w, e);
      hide FromRun;
      FromGrown(sha, vs, vs', run + [e]);
    }
  }

  lemma FromAppended(sha: Hash, vs: seq<Invite>, v: Invite, run: seq<Event>, j: nat)
    requires FromRun(sha, vs, run) && j < |run| && Created(sha, run[j], v)
    ensures FromRun(sha, vs + [v], run)
  {
  }

  /** Every invite in memory and on file was created by an event of the run. */
  lemma {:induction false} RunOrigins(sha: Hash, run: seq<Event>)
    ensures var w := Exec(sha, START, run); FromRun(sha, w.mem.invites, run) && FromRun(sha, Saved(w).invites, run)
    decreases |run|
  {
    if run != [] {
      var init, e := run[..|run| - 1], run[|run| - 1];
      assert run == init + [e];
      RunOrigins(sha, init);
      ExecSnoc(sha, START, init, e);
      var w := Exec(sha, START, init);
      MemoryOrigins(sha, w, init, e);
      FromLonger(sha, Saved(w).invites, init, e);
      hide FromRun, Exec, Memory;
    }
  }

  /** The answer to a bootstrap request at this time for an invite created by e and used this often. */
  function AnswerFor(e: Event, uses: int, now: int): Byte
    requires e.CreateInvite?
  {
    var expiry := (e.now + e.ttl) / 1_000_000_000;
    if e.ttl > 0 && expiry != 0 && now / 1_000_000_000 > expiry then 2
    else if uses >= (if e.maxUses > 1 then e.maxUses else 1) then 3
    else 0
  }

  /** Every answer over every run, failed saves and restarts included, goes back to the creation of the
      invite: without a live record of the token it is 1; otherwise the record was created by some
      earlier event, and the answer is 2 exactly past the second in which that event's lifetime ends,
      then 3 when the uses on record exhaust its limit, and 0 otherwise. A lifetime that ends in the
      first second of the epoch is stored as no expiry at all. */
  lemma RepliesExplained(sha: Hash, run: seq<Event>, token: seq<Byte>, now: int)
    ensures var st := Exec(sha, START, run).mem;
            && ((forall i: nat :: !FirstLive(st.invites, token, i)) <==> BootstrapStatus(st, token, now) == 1)
            && (forall i: nat :: FirstLive(st.invites, token, i) ==>
                  exists j :: && 0 <= j < |run| && run[j].CreateInvite? && run[j].token == token
                              && BootstrapStatus(st, token, now) == AnswerFor(run[j], st.invites[i].uses, now))
  {
    var st := Exec(sha, START, run).mem;
    BootstrapAnswers(st, token, now);
    RunOrigins(sha, run);
    hide Exec, BootstrapStatus, Hex;
    forall i: nat | FirstLive(st.invites, token, i)
      ensures exists j :: && 0 <= j < |run| && run[j].CreateInvite? && run[j].token == token
                          && BootstrapStatus(st, token, now) == AnswerFor(run[j], st.invites[i].uses, now)
    {
      assert InRun(sha, st.invites[i], run);
      var j :| 0 <= j < |run| && Created(sha, run[j], st.invites[i]);
      assert BootstrapStatus(st, token, now) == AnswerFor(run[j], st.invites[i].uses, now);
    }
  }

  /** So a grant never comes after the lifetime of the invite: whatever fails in between, a status-0
      reply for a token at some time means that an earlier event created the token with no lifetime
      or with one that had not passed. */
  lemma GrantsInTime(sha: Hash, run: seq<Event>, e: Event)
    requires e.Bootstrap? && IsGrant(Exec(sha, START, run), e, e.token)
    ensures exists j :: && 0 <= j < |run| && run[j].CreateInvite? && run[j].token == e.token
                        && var expiry := (run[j].now + run[j].ttl) / 1_000_000_000;
                           run[j].ttl > 0 && expiry != 0 ==> e.now / 1_000_000_000 <= expiry
  {
    RepliesExplained(sha, run, e.token, e.now);
    hide Exec, BootstrapStatus;
  }

  /** Whenever an event changes memory and its save succeeds, the file is the new memory; the file never
      changes otherwise. */
  lemma ChangesSaved(sha: Hash, w: World, e: Event)
    requires !e.Restart?
    ensures var w' := Next(sha, w, e);
            && (w'.mem != w.mem && e.saveOk ==> w'.file == Some(w'.mem))
            && (w'.file != w.file ==> e.saveOk && w'.file == Some(w'.mem))
  {
    hide Expired, Limit, NewDevice, NewInvite;
  }

  // ----- permanence -----

  /** st' keeps every record of st, in place, with identity unchanged, uses not smaller and
      revocations standing. */
  ghost predicate Grows(st: Store, st': Store) {
    && |st.devices| <= |st'.devices| && |st.invites| <= |st'.invites|
    && (forall i :: 0 <= i < |st.devices| ==> DeviceGrows(st.devices[i], st'.devices[i]))
    && (forall i :: 0 <= i < |st.invites| ==> InviteGrows(st.invites[i], st'.invites[i]))
  }

  predicate DeviceGrows(d: Device, d': Device) {
    && d'.pubKey == d.pubKey && d'.deviceId == d.deviceId && d'.name == d.name && d'.registeredAt == d.registeredAt
    && (d.revoked ==> d'.revoked)
  }

  predicate InviteGrows(v: Invite, v': Invite) {
    && v'.token == v.token && v'.tokenId == v.tokenId && v'.name == v.name && v'.maxUses == v.maxUses
    && v'.expiresAt == v.expiresAt && v'.createdAt == v.createdAt
    && v.uses <= v'.uses && (v.revoked ==> v'.revoked)
  }

  lemma GrowsTransitive(a: Store, b: Store, c: Store)
    requires Grows(a, b) && Grows(b, c)
    ensures Grows(a, c)
  {
    forall i | 0 <= i < |a.devices| ensures DeviceGrows(a.devices[i], c.devices[i]) {
      assert DeviceGrows(a.devices[i], b.devices[i]) && DeviceGrows(b.devices[i], c.devices[i]);
    }
    forall i | 0 <= i < |a.invites| ensures InviteGrows(a.invites[i], c.invites[i]) {
      assert InviteGrows(a.invites[i], b.invites[i]) && InviteGrows(b.invites[i], c.invites[i]);
    }
  }

  lemma MemoryGrows(sha: Hash, w: World, e: Event)
    requires !e.Restart?
    ensures Grows(w.mem, Memory(sha, w, e))
  {
  }

  /** Records are never removed, revocations never withdrawn: memory only grows until a restart,
      and what has been saved survives every restart. */
  lemma {:induction false} RecordsPermanent(sha: Hash, w: World, run: seq<Event>)
    requires Grows(Saved(w), w.mem)
    ensures var w' := Exec(sha, w, run);
            && Grows(Saved(w), Saved(w')) && Grows(Saved(w'), w'.mem) && Grows(Saved(w), w'.mem)
            && ((forall i :: 0 <= i < |run| ==> !run[i].Restart?) ==> Grows(w.mem, w'.mem))
    decreases |run|
  {
    hide Memory, Saves;
    if run == [] {
      GrowsSelf(Saved(w));
      GrowsSelf(w.mem);
    } else {
      var w1, w' := Next(sha, w, run[0]), Exec(sha, w, run);
      NextGrows(sha, w, run[0]);
      RecordsPermanent(sha, w1, run[1..]);
      GrowsTransitive(Saved(w), Saved(w1), Saved(w'));
      GrowsTransitive(Saved(w), Saved(w'), w'.mem);
      if forall i :: 0 <= i < |run| ==> !run[i].Restart? {
        GrowsTransitive(w.mem, w1.mem, w'.mem);
      }
    }
  }

  lemma GrowsSelf(st: Store)
    ensures Grows(st, st)
  {
  }

  lemma NextGrows(sha: Hash, w: World, e: Event)
    requires Grows(Saved(w), w.mem)
    ensures var w1 := Next(sha, w, e);
            && Grows(Saved(w), Saved(w1)) && Grows(Saved(w1), w1.mem) && (!e.Restart? ==> Grows(w.mem, w1.mem))
  {
    var w1 := Next(sha, w, e);
    GrowsSelf(Saved(w));
    GrowsSelf(w1.mem);
    if !e.Restart? {
      MemoryGrows(sha, w, e);
      GrowsTransitive(Saved(w), w.mem, w1.mem);
    }
  }

  /** The first record of a key is revoked. */
  predicate KeyRevoked(st: Store, pub: seq<Byte>) {
    var i := FindDevice(st.devices, ByKey(pub));
    i < |st.devices| && st.devices[i].revoked
  }

  lemma GrowsKeepsRevoked(st: Store, st': Store, pub: seq<Byte>)
    requires Grows(st, st') && KeyRevoked(st, pub)
    ensures KeyRevoked(st', pub)
  {
    var i, j := FindDevice(st.devices, ByKey(pub)), FindDevice(st'.devices, ByKey(pub));
    assert DeviceGrows(st.devices[i], st'.devices[i]);
    assert forall m :: 0 <= m < i ==> DeviceGrows(st.devices[m], st'.devices[m]);
  }

  /** Revocation is permanent: once a saved state has a key's first record revoked, the key is
      refused as revoked in every later state of every run, restarts and re-registration of the
      key included; an unsaved revocation lasts until the next restart. */
  lemma RevocationPermanent(sha: Hash, w: World, run: seq<Event>, pub: seq<Byte>)
    requires Grows(Saved(w), w.mem)
    ensures KeyRevoked(Saved(w), pub) ==> AuthorizeStatus(Exec(sha, w, run).mem, pub) == AUTH_REVOKED
    ensures KeyRevoked(w.mem, pub) && (forall i :: 0 <= i < |run| ==> !run[i].Restart?) ==>
              AuthorizeStatus(Exec(sha, w, run).mem, pub) == AUTH_REVOKED
  {
    RecordsPermanent(sha, w, run);
    var st := Exec(sha, w, run).mem;
    hide Grows;
    if KeyRevoked(Saved(w), pub) {
      GrowsKeepsRevoked(Saved(w), st, pub);
    }
    if KeyRevoked(w.mem, pub) && (forall i :: 0 <= i < |run| ==> !run[i].Restart?) {
      GrowsKeepsRevoked(w.mem, st, pub);
    }
  }

  /** Revoking a registered key by its short ID takes effect exactly when the key was revoked
      already or no earlier record, necessarily of another key, has the same short ID. */
  lemma RevokeByShortId(sha: Hash, st: Store, pub: seq<Byte>)
    requires Accounted(sha, st) && FindDevice(st.devices, ByKey(pub)) < |st.devices|
    ensures var i := FindDevice(st.devices, ByKey(pub));
            var id := ShortDeviceId(sha, pub);
            && KeyRevoked(DeviceRevoked(st, id), pub) <==>
               (KeyRevoked(st, pub) || forall j :: 0 <= j < i ==> st.devices[j].deviceId != id)
  {
    var i, id := FindDevice(st.devices, ByKey(pub)), ShortDeviceId(sha, pub);
    var k := FindDevice(st.devices, ById(id));
    var st' := DeviceRevoked(st, id);
    assert st.devices[i].deviceId == id;
    assert k <= i;
    assert forall j :: 0 <= j < |st.devices| ==> st'.devices[j].pubKey == st.devices[j].pubKey;
    var i' := FindDevice(st'.devices, ByKey(pub));
    assert DeviceMatches(st'.devices[i], ByKey(pub));
    assert i' == i;
    if k < i {
      assert st.devices[k].deviceId == id;
    }
  }

  /** A live invite is put out of use by an ID exactly when it is the first invite the ID matches. */
  lemma RevokeInviteExact(sha: Hash, st: Store, id: seq<Byte>, i: nat, now: int)
    requires Accounted(sha, st) && i < |st.invites| && !st.invites[i].revoked
    ensures BootstrapStatus(InviteRevoked(st, id), st.invites[i].token, now) == BOOTSTRAP_INVALID <==>
            FindInvite(st.invites, ByIdPrefix(id)) == i
  {
    var st', token := InviteRevoked(st, id), st.invites[i].token;
    var j := FindInvite(st'.invites, ByToken(token));
    assert forall m :: 0 <= m < |st.invites| ==> st'.invites[m].token == st.invites[m].token;
    assert forall m :: 0 <= m < |st.invites| && m != i ==> !InviteMatches(st'.invites[m], ByToken(token));
  }

  /** A saved revocation of an invite is permanent: its token is refused as invalid in every later
      state of every run, restarts included. */
  lemma InviteRevocationPermanent(sha: Hash, w: World, run: seq<Event>, i: nat, now: int)
    requires WorldInv(sha, w) && LegalRun(sha, w, run) && Grows(Saved(w), w.mem)
    requires i < |Saved(w).invites| && Saved(w).invites[i].revoked
    ensures BootstrapStatus(Exec(sha, w, run).mem, Saved(w).invites[i].token, now) == BOOTSTRAP_INVALID
  {
    RecordsPermanent(sha, w, run);
    RunInv(sha, w, run);
    var st, token := Exec(sha, w, run).mem, Saved(w).invites[i].token;
    hide Exec, LegalRun;
    assert InviteGrows(Saved(w).invites[i], st.invites[i]);
    var j := FindInvite(st.invites, ByToken(token));
    assert j < |st.invites| ==> j == i;
  }

  function RevokedDevices(ds: seq<Device>): nat {
    if ds == [] then 0 else RevokedDevices(ds[..|ds| - 1]) + (if ds[|ds| - 1].revoked then 1 else 0)
  }

  /** Every record is counted as active or revoked. */
  lemma {:induction false} ActivePlusRevoked(ds: seq<Device>)
    ensures ActiveDevices(ds) + RevokedDevices(ds) == |ds|
  {
    if ds != [] {
      ActivePlusRevoked(ds[..|ds| - 1]);
    }
  }
}
