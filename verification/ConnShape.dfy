/** The sender's phases: the burst limit and the published state the keepalive looks at. */
module ConnShape {
  import opened FrameCodec
  import opened Conn
  import opened ConnRuns
  import opened ConnPaths
  import Fragment

  /** A burst stays below the limit until the chunk that ends it; the first chunk alone is never
      checked. */
  predicate UnderLimit(burst: seq<Chunk>, max: nat) {
    forall i :: 2 <= i < |burst| ==> TotalLen(burst[..i]) < max
  }

  predicate Open(burst: seq<Chunk>, max: nat) {
    UnderLimit(burst, max) && (|burst| >= 2 ==> TotalLen(burst) < max)
  }

  ghost predicate LimitKept(s: Sender) {
    && (forall i :: 0 <= i < |s.bursts| ==> UnderLimit(s.bursts[i].chunks, s.maxBurst))
    && (s.phase.Collecting? ==> Open(s.phase.burst, s.maxBurst))
  }

  /** The published state names the phase, except that a cancelled or failed sender leaves it
      behind. */
  predicate ModeKept(s: Sender) {
    match s.phase
    case Collecting(_) => s.mode.Burst?
    case Flushing(_) => s.mode.Burst?
    case Draining => s.mode.Drain?
    case Thinking => s.mode.Think?
    case Waiting => s.mode.Idle? || s.cancelled || s.writeErr
    case Exited => s.cancelled
  }

  ghost predicate Shape(s: Sender) {
    LimitKept(s) && ModeKept(s)
  }

  lemma GatherShape(s: Sender)
    requires Shape(s) && s.phase.Collecting? && s.inbox != []
    ensures Shape(GatherChunk(s))
  {
    hide TotalLen;
    var burst := s.phase.burst + [s.inbox[0]];
    forall i | 2 <= i < |burst| ensures TotalLen(burst[..i]) < s.maxBurst {
      if i == |s.phase.burst| {
        assert burst[..i] == s.phase.burst;
      } else {
        assert burst[..i] == s.phase.burst[..i];
      }
    }
  }

  lemma SendShape(l: Local, d: Fragment.Draw, o: Outcome)
    requires Shape(l.e.s) && l.e.s.phase.Flushing?
    ensures Shape(SendChunk(l, d, o).e.s)
  {
    hide TotalLen, Emit, Emitted, Through, WriteOk, UnderLimit, Fragment.NextFrame, Fragment.PadFails;
  }

  lemma ShapeStep(l: Local, a: Action)
    requires Shape(l.e.s) && Enabled(l, a)
    ensures Shape(Apply(l, a).e.s)
  {
    match a
    case Gather => GatherShape(l.e.s); hide Shape, GatherChunk;
    case SendData(d, o) => SendShape(l, d, o); hide Shape, SendChunk;
    case _ => hide TotalLen, Parse, Emit, Emitted, Through, SendChunk, GatherChunk;
  }

  lemma {:induction false} RunShape(n: Net, run: seq<Label>)
    requires Shape(n.a.s) && Shape(n.b.s) && Possible(n, run)
    ensures Shape(Exec(n, run).a.s) && Shape(Exec(n, run).b.s)
    decreases |run|
  {
    if run != [] {
      ShapeStep(View(n, run[0].side), run[0].action);
      hide Shape, Apply, Enabled;
      RunShape(Step(n, run[0]), run[1..]);
    }
  }

  lemma ReachableShape(n: Net)
    requires Reachable(n)
    ensures Shape(n.a.s) && Shape(n.b.s)
  {
    var ma: nat, mb: nat, run :| Possible(Init(ma, mb), run) && n == Exec(Init(ma, mb), run);
    RunShape(Init(ma, mb), run);
  }

  /** A burst is closed as soon as it reaches the personality's limit: without its last chunk it is
      below the limit. The first chunk alone is not checked, so this starts at three chunks. */
  lemma BurstsLimited(n: Net, g: Gathered)
    requires Reachable(n)
    ensures g in n.a.s.bursts && |g.chunks| >= 3 ==> TotalLen(g.chunks[..|g.chunks| - 1]) < n.a.s.maxBurst
    ensures n.a.s.phase.Collecting? && |n.a.s.phase.burst| >= 2 ==> TotalLen(n.a.s.phase.burst) < n.a.s.maxBurst
  {
    ReachableShape(n);
    hide TotalLen;
  }

  // ----- keepalive PINGs -----

  /** Neither gathering, flushing nor draining. */
  predicate Quiet(p: Phase) {
    p.Waiting? || p.Thinking? || p.Exited?
  }

  /** The keepalive's state check passes only while the sender is quiet, and until an error or
      cancellation exactly then. */
  lemma KeepaliveChecksQuiet(n: Net)
    requires Reachable(n)
    ensures Enabled(View(n, A), KeepaliveFires) ==> Quiet(n.a.s.phase)
    ensures !n.a.s.cancelled && !n.a.s.writeErr ==>
              (Enabled(View(n, A), KeepaliveFires) <==> n.a.p.keepalive.Sleeping? && Quiet(n.a.s.phase))
  {
    ReachableShape(n);
    hide Reachable;
  }

  predicate NoTake(run: seq<Label>) {
    forall i :: 0 <= i < |run| ==> run[i] != Label(A, Take)
  }

  lemma QuietStep(l: Local, a: Action)
    requires Quiet(l.e.s.phase) && Enabled(l, a) && !a.Take?
    ensures Quiet(Apply(l, a).e.s.phase)
  {
    hide Parse, Emit, Emitted, Through, WriteOk, TotalLen;
  }

  lemma {:induction false} QuietRun(n: Net, run: seq<Label>)
    requires Quiet(n.a.s.phase) && Possible(n, run) && NoTake(run)
    ensures Quiet(Exec(n, run).a.s.phase)
    decreases |run|
  {
    if run != [] {
      if run[0].side.A? {
        QuietStep(View(n, A), run[0].action);
      }
      hide Quiet, Apply, Enabled;
      QuietRun(Step(n, run[0]), run[1..]);
    }
  }

  /** When the promise holds: if the sender takes up no chunk between the keepalive's check and its
      write, the PING goes out while the sender is quiet. */
  lemma PingWithoutTake(n: Net, run: seq<Label>, payload: Chunk, o: Outcome)
    requires Reachable(n) && CanStep(n, Label(A, KeepaliveFires)) && NoTake(run)
    requires Possible(Step(n, Label(A, KeepaliveFires)), run)
    requires CanStep(Exec(Step(n, Label(A, KeepaliveFires)), run), Label(A, SendPing(payload, o)))
    ensures var m := Exec(Step(n, Label(A, KeepaliveFires)), run);
            Quiet(m.a.s.phase) && Step(m, Label(A, SendPing(payload, o))).a.s == m.a.s
  {
    KeepaliveChecksQuiet(n);
    hide Reachable;
    QuietRun(Step(n, Label(A, KeepaliveFires)), run);
    PingEffect(Exec(Step(n, Label(A, KeepaliveFires)), run), payload, o);
  }

  lemma PingEffect(m: Net, payload: Chunk, o: Outcome)
    requires CanStep(m, Label(A, SendPing(payload, o)))
    ensures var m' := Step(m, Label(A, SendPing(payload, o)));
            && m'.a.s == m.a.s
            && (WriteOk(m.a.k, o) ==> m'.a.k.sent == m.a.k.sent + [Frame(PING, 0, payload, 0)])
  {
    hide Parse, Encode, SendChunk, Pong, GatherChunk, StopSender, SamplePong, Serve, Receive;
    var l := View(m, A);
    assert Apply(l, SendPing(payload, o)) == Ping(l, payload, o);
  }

  /** No chunk can reach the sender any more. */
  predicate Finished(s: Sender) {
    s.phase.Exited? || (Quiet(s.phase) && Pending(s) == 0 && s.writeErr)
  }

  lemma FinishedStep(l: Local, a: Action)
    requires Finished(l.e.s) && Enabled(l, a)
    ensures Finished(Apply(l, a).e.s)
  {
    hide Parse, Emit, Emitted, Through, WriteOk, TotalLen;
  }

  lemma {:induction false} FinishedRun(n: Net, run: seq<Label>)
    requires Finished(n.a.s) && Possible(n, run)
    ensures Finished(Exec(n, run).a.s)
    decreases |run|
  {
    if run != [] {
      if run[0].side.A? {
        FinishedStep(View(n, A), run[0].action);
      }
      hide Finished, Apply, Enabled;
      FinishedRun(Step(n, run[0]), run[1..]);
    }
  }

  /** A call of Write, if none is under way, and a new burst. */
  lemma StartNewBurst(n: Net, m: Net) returns (m': Net)
    requires Leads(n, m, true) && Quiet(m.a.s.phase) && !Finished(m.a.s)
    ensures Leads(n, m', true) && m'.a.s.phase.Collecting? && m'.a.p == m.a.p && m'.a.k == m.a.k && m'.a.r == m.a.r
  {
    hide Leads;
    m' := m;
    if Pending(m.a.s) == 0 {
      LeadsStep(n, m, Label(A, EnterWrite), true);
      m' := Step(m, Label(A, EnterWrite));
    }
    m' := StartBurst(n, m', true);
  }

  lemma BrokenStep(l: Local, a: Action)
    requires l.e.k.broken && Enabled(l, a)
    ensures Apply(l, a).e.k.broken
  {
    hide Parse, Encode, TotalLen;
  }

  lemma {:induction false} BrokenRun(n: Net, run: seq<Label>)
    requires n.a.k.broken && Possible(n, run)
    ensures Exec(n, run).a.k.broken
    decreases |run|
  {
    if run != [] {
      if run[0].side.A? {
        BrokenStep(View(n, A), run[0].action);
      }
      hide Apply, Enabled;
      BrokenRun(Step(n, run[0]), run[1..]);
    }
  }

  /** The exact condition: a PING that is about to be written from a quiet state can still go out on
      a working channel while the sender is not quiet if and only if the channel works now and some
      chunk can still reach the sender. */
  lemma BusyPingIff(n: Net)
    requires n.a.p.keepalive.Stamped? && Quiet(n.a.s.phase)
    ensures (exists m :: Leads(n, m, true) && m.a.p == n.a.p && !m.a.k.broken && !Quiet(m.a.s.phase)) <==>
            !n.a.k.broken && !Finished(n.a.s)
  {
    if n.a.k.broken || Finished(n.a.s) {
      forall m | Leads(n, m, true) ensures m.a.k.broken || Quiet(m.a.s.phase) {
        var run :| Possible(n, run) && m == Exec(n, run);
        if n.a.k.broken {
          BrokenRun(n, run);
        } else {
          FinishedRun(n, run);
        }
      }
    } else {
      LeadsSelf(n, true);
      var m := StartNewBurst(n, n);
    }
  }

  lemma WritePing(n: Net, m: Net, payload: Chunk) returns (m': Net)
    requires Leads(n, m, true) && m.a.p.keepalive.Stamped? && |payload| <= MAX_PAYLOAD && !m.a.k.broken
    ensures Leads(n, m', true) && m'.a.s == m.a.s && m'.a.k.sent == m.a.k.sent + [Frame(PING, 0, payload, 0)]
  {
    var x := Label(A, SendPing(payload, Succeeds));
    LeadsStep(n, m, x, true);
    PingEffect(m, payload, Succeeds);
    hide Leads, Step;
    m' := Step(m, x);
  }

  /** The last frame written is a PING with this payload. */
  predicate JustPinged(m: Net, payload: Chunk) {
    m.a.k.sent != [] && m.a.k.sent[|m.a.k.sent| - 1] == Frame(PING, 0, payload, 0)
  }

  /** In that case, with a working channel, the PING can be written while the sender gathers, while
      it flushes and while it drains: the promise that it never is does not hold. */
  lemma BusyPings(n: Net, payload: Chunk) returns (gathering: Net, flushing: Net, draining: Net)
    requires n.a.p.keepalive.Stamped? && Quiet(n.a.s.phase) && !Finished(n.a.s)
    requires !n.a.k.broken && |payload| <= MAX_PAYLOAD
    ensures Leads(n, gathering, true) && gathering.a.s.phase.Collecting? && JustPinged(gathering, payload)
    ensures Leads(n, flushing, true) && flushing.a.s.phase.Flushing? && JustPinged(flushing, payload)
    ensures Leads(n, draining, true) && draining.a.s.phase.Draining? && JustPinged(draining, payload)
  {
    LeadsSelf(n, true);
    hide Leads;
    var m := StartNewBurst(n, n);
    gathering := WritePing(n, m, payload);
    m := CloseBurst(n, m, true);
    flushing := WritePing(n, m, payload);
    m := FinishFlush(n, m, true);
    draining := WritePing(n, m, payload);
  }

  // ----- when the goroutines end -----

  /** The sender ends only when it finds the cancellation while waiting for a burst to begin. */
  lemma SenderExits(l: Local, a: Action)
    requires Enabled(l, a) && !l.e.s.phase.Exited? && Apply(l, a).e.s.phase.Exited?
    ensures a.SenderStops? && l.e.s.phase.Waiting? && l.e.s.cancelled
  {
    hide Parse, Emit, Emitted, Through, WriteOk, TotalLen;
  }

  lemma StoppedStep(l: Local, a: Action)
    requires Enabled(l, a)
    ensures l.e.p.keepalive.Stopped? ==> Apply(l, a).e.p.keepalive.Stopped? && Apply(l, a).e.p.started == l.e.p.started
    ensures var e' := Apply(l, a).e;
            (l.e.p.keepalive.Stopped? ==> l.e.s.cancelled || l.e.k.broken) ==>
            (e'.p.keepalive.Stopped? ==> e'.s.cancelled || e'.k.broken)
  {
    hide Parse, Encode, TotalLen;
  }

  lemma {:induction false} StoppedRun(n: Net, run: seq<Label>)
    requires Possible(n, run)
    ensures n.a.p.keepalive.Stopped? ==>
              Exec(n, run).a.p.keepalive.Stopped? && Exec(n, run).a.p.started == n.a.p.started
    ensures (n.a.p.keepalive.Stopped? ==> n.a.s.cancelled || n.a.k.broken) ==>
            (Exec(n, run).a.p.keepalive.Stopped? ==> Exec(n, run).a.s.cancelled || Exec(n, run).a.k.broken)
    decreases |run|
  {
    if run != [] {
      if run[0].side.A? {
        StoppedStep(View(n, A), run[0].action);
      }
      hide Apply, Enabled;
      StoppedRun(Step(n, run[0]), run[1..]);
    }
  }

  /** While the connection is open and its channel works the keepalive keeps going. */
  lemma KeepaliveLives(n: Net)
    requires Reachable(n) && !n.a.s.cancelled && !n.a.k.broken
    ensures !n.a.p.keepalive.Stopped?
  {
    var ma: nat, mb: nat, run :| Possible(Init(ma, mb), run) && n == Exec(Init(ma, mb), run);
    StoppedRun(Init(ma, mb), run);
  }

  /** A PING that cannot be written is the last: no further one is ever started. */
  lemma FailedPingEnds(n: Net, payload: Chunk, o: Outcome, n': Net)
    requires CanStep(n, Label(A, SendPing(payload, o))) && !WriteOk(n.a.k, o)
    requires Leads(Step(n, Label(A, SendPing(payload, o))), n', true)
    ensures n'.a.p.keepalive.Stopped? && n'.a.p.started == n.a.p.started
  {
    var m := Step(n, Label(A, SendPing(payload, o)));
    var run :| Possible(m, run) && n' == Exec(m, run);
    assert m.a.p.keepalive.Stopped? && m.a.p.started == n.a.p.started by { hide Encode, Parse; }
    StoppedRun(m, run);
  }

  lemma ReachStamped(max: nat) returns (n: Net)
    ensures Reachable(n) && n == Init(max, max).(a := Fresh(max).(p := Pinger(Stamped, true, 1, 0)))
  {
    n := Init(max, max);
    assert Possible(n, []) && Exec(n, []) == n;
    hide Reachable;
    ReachableStep(n, Label(A, KeepaliveFires));
    n := Step(n, Label(A, KeepaliveFires));
    ReachableStep(n, Label(A, StampPing));
    n := Step(n, Label(A, StampPing));
  }

  /** A reachable instance with the payload the source sends: a PING written during a burst, during
      its flush and during the drain after it. */
  lemma PingDuringBurst() returns (gathering: Net, flushing: Net, draining: Net)
    ensures Reachable(gathering) && gathering.a.s.phase.Collecting? && JustPinged(gathering, PING_PAYLOAD)
    ensures Reachable(flushing) && flushing.a.s.phase.Flushing? && JustPinged(flushing, PING_PAYLOAD)
    ensures Reachable(draining) && draining.a.s.phase.Draining? && JustPinged(draining, PING_PAYLOAD)
  {
    var n := ReachStamped(1);
    gathering, flushing, draining := BusyPings(n, PING_PAYLOAD);
    hide Reachable, Leads;
    ReachableLeads(n, gathering, true);
    ReachableLeads(n, flushing, true);
    ReachableLeads(n, draining, true);
  }
}
