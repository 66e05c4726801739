/** Schedules that lead from one state of a connection to another: finishing a flush, starting a
    burst, dropping it, and reading everything that has arrived. */
module ConnPaths {
  import opened Bytes
  import opened FrameCodec
  import opened FrameStream
  import opened Conn
  import opened ConnInvariant
  import opened ConnRuns
  import Fragment

  /** No new call of Write gets past its error check at a. */
  predicate NoNewCalls(run: seq<Label>) {
    forall i :: 0 <= i < |run| ==> run[i] != Label(A, EnterWrite)
  }

  /** Some schedule leads from n to n', without new calls of Write at a unless calls allows them. */
  ghost predicate Leads(n: Net, n': Net, calls: bool) {
    exists run :: Possible(n, run) && (calls || NoNewCalls(run)) && n' == Exec(n, run)
  }

  lemma LeadsSelf(n: Net, calls: bool)
    ensures Leads(n, n, calls)
  {
    assert Possible(n, []) && NoNewCalls([]) && Exec(n, []) == n;
  }

  lemma LeadsStep(n: Net, m: Net, x: Label, calls: bool)
    requires Leads(n, m, calls) && CanStep(m, x) && (calls || x != Label(A, EnterWrite))
    ensures Leads(n, Step(m, x), calls)
  {
    var run :| Possible(n, run) && (calls || NoNewCalls(run)) && m == Exec(n, run);
    ExecSnoc(n, run, x);
    assert calls || NoNewCalls(run + [x]);
  }

  lemma {:induction false} ReachableExec(n: Net, run: seq<Label>)
    requires Reachable(n) && Possible(n, run)
    ensures Reachable(Exec(n, run))
    decreases |run|
  {
    hide Reachable;
    if run != [] {
      ReachableStep(n, run[0]);
      hide CanStep, Step;
      ReachableExec(Step(n, run[0]), run[1..]);
    }
  }

  lemma ReachableLeads(n: Net, n': Net, calls: bool)
    requires Reachable(n) && Leads(n, n', calls)
    ensures Reachable(n')
  {
    var run :| Possible(n, run) && (calls || NoNewCalls(run)) && n' == Exec(n, run);
    ReachableExec(n, run);
  }

  // ----- the sender -----

  /** One undisturbed call of Write. */
  lemma ReachWrite(n: Net, c: Chunk) returns (n': Net)
    requires Reachable(n) && c != [] && !n.a.s.writeErr && |n.a.s.inbox| < INBOX_CAPACITY
    ensures Reachable(n')
    ensures n' == n.(a := n.a.(s := n.a.s.(inbox := n.a.s.inbox + [c], accepted := n.a.s.accepted + [c])))
  {
    hide Reachable;
    ReachableStep(n, Label(A, EnterWrite));
    n' := Step(n, Label(A, EnterWrite));
    ReachableStep(n', Label(A, Write(c)));
    n' := Step(n', Label(A, Write(c)));
  }

  /** Draws for a frame without padding, and for a padded one whose padding cannot be drawn. */
  const PLAIN := Fragment.Draw(1024, true, 1024, _ => 0, true)
  const NO_PAD := Fragment.Draw(12, false, 1024, _ => 0, false)

  /** Chunks on their way to a later burst, and the burst being gathered. */
  function Pending(s: Sender): nat {
    |s.inbox| + s.callers + (if s.phase.Collecting? then 1 else 0)
  }

  /** The state of a sender that wrote some more of its burst. */
  predicate WroteSome(s: Sender, s': Sender) {
    && s.phase.Flushing? && s' == s.(phase := s'.phase, mode := s'.mode, pieces := s'.pieces)
    && (s'.phase.Flushing? || (s'.phase.Draining? && s'.mode.Drain?))
    && SentBytes(s'.pieces) + Unsent(s'.phase) == SentBytes(s.pieces) + s.phase.remaining
    && s.pieces < s'.pieces && s'.pieces[|s'.pieces| - 1].fate.Sent?
  }

  lemma AfterSendWrote(s: Sender, payload: seq<Byte>, rest: seq<Byte>)
    requires s.phase == Flushing(payload + rest)
    ensures WroteSome(s, AfterSend(s, true, payload, rest))
  {
    AppendPiece(s.pieces, Piece(payload, Sent));
    MoveOver(SentBytes(s.pieces), payload, rest);
    hide SentBytes, AllBytes, FlushedBytes, LostBytes;
    assert (s.pieces + [Piece(payload, Sent)])[|s.pieces|] == Piece(payload, Sent);
    assert rest == [] ==> payload + rest == payload;
  }

  /** Writing one fragment of a burst, the channel permitting. */
  lemma SendEffect(m: Net)
    requires m.a.s.phase.Flushing?
    ensures CanStep(m, Label(A, SendData(PLAIN, Succeeds)))
    ensures var m', s := Step(m, Label(A, SendData(PLAIN, Succeeds))), m.a.s;
            && m'.b == m.b && m'.a.p == m.a.p && m'.a.r == m.a.r && m'.a.k.broken == m.a.k.broken
            && Payloads(m'.a.k.sent, PONG) == Payloads(m.a.k.sent, PONG)
            && (m.a.k.broken ==> m'.a.s == GiveUp(s, s.phase.remaining))
            && (!m.a.k.broken ==> WroteSome(s, m'.a.s) && (m'.a.s.phase.Draining? || Smaller(m'.a.s, s)))
  {
    var l, remaining := View(m, A), m.a.s.phase.remaining;
    var w := Fragment.NextFrame(PLAIN, remaining);
    var rest := remaining[|w.frame.payload|..];
    assert w.frame.padLen == 0;
    assert remaining == w.frame.payload + rest;
    AfterSendWrote(m.a.s, w.frame.payload, rest);
    EmitPayloads(m.a.k, w, Succeeds);
    assert Payloads(m.a.k.sent, PONG) + [] == Payloads(m.a.k.sent, PONG);
    hide Payloads, DataOf, Parse, Encode, Pong, Ping, GatherChunk, StopSender, SamplePong, Serve, Receive, WroteSome,
         Fragment.NextFrame;
    assert Apply(l, SendData(PLAIN, Succeeds)) == SendChunk(l, PLAIN, Succeeds);
  }

  predicate Smaller(s': Sender, s: Sender) {
    |Unsent(s'.phase)| < |Unsent(s.phase)|
  }

  /** A flush ends: in the drain phase when the channel works, back at waiting otherwise. */
  lemma {:induction false} FinishFlush(n: Net, m: Net, calls: bool) returns (m': Net)
    requires Leads(n, m, calls) && m.a.s.phase.Flushing?
    ensures Leads(n, m', calls) && m'.b == m.b && m'.a.p == m.a.p && m'.a.r == m.a.r
    ensures m'.a.k.broken == m.a.k.broken
    ensures Payloads(m'.a.k.sent, PONG) == Payloads(m.a.k.sent, PONG)
    ensures m.a.k.broken ==> m'.a.s == GiveUp(m.a.s, m.a.s.phase.remaining)
    ensures !m.a.k.broken ==> WroteSome(m.a.s, m'.a.s) && m'.a.s.phase.Draining?
    decreases |Unsent(m.a.s.phase)|
  {
    var x := Label(A, SendData(PLAIN, Succeeds));
    SendEffect(m);
    LeadsStep(n, m, x, calls);
    hide Leads, CanStep, Step, SentBytes, Payloads;
    m' := Step(m, x);
    if m'.a.s.phase.Flushing? {
      m' := FinishFlush(n, m', calls);
    }
  }

  /** The sender takes up a chunk that waits in the inbox or in a call of Write. */
  lemma StartBurst(n: Net, m: Net, calls: bool) returns (m': Net)
    requires Leads(n, m, calls) && Selecting(m.a.s.phase) && Pending(m.a.s) > 0
    ensures Leads(n, m', calls) && m'.b == m.b && m'.a.p == m.a.p && m'.a.k == m.a.k && m'.a.r == m.a.r
    ensures m'.a.s.phase.Collecting? && Pending(m'.a.s) == Pending(m.a.s)
    ensures m'.a.s.bursts == m.a.s.bursts && m'.a.s.writeErr == m.a.s.writeErr && m'.a.s.pieces == m.a.s.pieces
    ensures m.a.s.inbox != [] ==> m'.a.s == TakeChunk(m.a.s)
  {
    hide Leads;
    m' := m;
    if m.a.s.inbox == [] {
      LeadsStep(n, m, Label(A, Write([0])), calls);
      m' := Step(m, Label(A, Write([0])));
    }
    LeadsStep(n, m', Label(A, Take), calls);
    m' := Step(m', Label(A, Take));
  }

  /** A sender that is neither flushing nor gone can come to gather whatever is pending. */
  lemma StartGathering(n: Net, m: Net, calls: bool) returns (m': Net)
    requires Leads(n, m, calls) && !m.a.s.phase.Exited? && !m.a.s.phase.Flushing? && Pending(m.a.s) > 0
    ensures Leads(n, m', calls) && m'.b == m.b && m'.a.p == m.a.p && m'.a.k == m.a.k
    ensures m'.a.s.phase.Collecting? && Pending(m'.a.s) == Pending(m.a.s) && m'.a.s.pieces == m.a.s.pieces
  {
    hide Leads;
    m' := m;
    if !m'.a.s.phase.Collecting? {
      m' := StartBurst(n, m', calls);
    }
  }

  /** A padding draw fails during a flush. */
  lemma SkipFlush(n: Net, m: Net, calls: bool) returns (m': Net)
    requires Leads(n, m, calls) && m.a.s.phase.Flushing?
    ensures Leads(n, m', calls) && m'.b == m.b && m'.a.p == m.a.p && m'.a.k == m.a.k
    ensures m'.a.s == GiveUp(m.a.s, m.a.s.phase.remaining).(skipped := true)
  {
    var x, l := Label(A, SendData(NO_PAD, Succeeds)), View(m, A);
    assert Fragment.PadFails(NO_PAD, Fragment.NextFrame(NO_PAD, m.a.s.phase.remaining));
    hide Leads, Parse, Encode, Pong, Ping, GatherChunk, StopSender, SamplePong, Serve, Receive, Fragment.NextFrame,
         Fragment.PadFails;
    assert Apply(l, SendData(NO_PAD, Succeeds)) == SendChunk(l, NO_PAD, Succeeds);
    LeadsStep(n, m, x, calls);
    m' := Step(m, x);
  }

  /** Cancelling while gathering drops the burst. */
  lemma DropBurst(n: Net, m: Net, calls: bool) returns (m': Net)
    requires Leads(n, m, calls) && m.a.s.phase.Collecting?
    ensures Leads(n, m', calls) && m'.b == m.b && m'.a.p == m.a.p && m'.a.k == m.a.k
    ensures m'.a.s.phase == Waiting && Pending(m'.a.s) == Pending(m.a.s) - 1
    ensures m'.a.s.pieces == m.a.s.pieces + [Piece(Flatten(m.a.s.phase.burst), Dropped)]
  {
    hide Leads;
    LeadsStep(n, m, Label(A, Cancel), calls);
    m' := Step(m, Label(A, Cancel));
    LeadsStep(n, m', Label(A, SenderStops), calls);
    m' := Step(m', Label(A, SenderStops));
  }

  lemma CloseBurst(n: Net, m: Net, calls: bool) returns (m': Net)
    requires Leads(n, m, calls) && m.a.s.phase.Collecting?
    ensures Leads(n, m', calls) && m'.b == m.b && m'.a.p == m.a.p && m'.a.k == m.a.k && m'.a.r == m.a.r
    ensures m'.a.s == BeginFlush(m.a.s)
  {
    hide Leads;
    LeadsStep(n, m, Label(A, WindowEnds), calls);
    m' := Step(m, Label(A, WindowEnds));
  }

  // ----- the reader -----

  /** A buffer large enough for any frame. */
  const ROOM := MAX_PAYLOAD

  lemma LeftoverEffect(m: Net)
    requires m.b.r.reading.leftover != []
    ensures var x := Label(B, ReadLeftover(|m.b.r.reading.leftover|));
            && CanStep(m, x) && Step(m, x).a == m.a && Step(m, x).ab == m.ab
            && Step(m, x).b.r.reading.leftover == []
            && Step(m, x).b.r.delivered == m.b.r.delivered + m.b.r.reading.leftover
  {
    hide Parse, SendChunk, Pong, Ping, GatherChunk, StopSender, SamplePong, Receive;
    var l, k := View(m, B), |m.b.r.reading.leftover|;
    assert Apply(l, ReadLeftover(k)).e.r == Serve(l.e.r, k);
  }

  lemma ReadEffect(m: Net)
    requires m.b.r.reading.leftover == [] && Parse(m.ab).Ok?
    ensures var x, f := Label(B, ReadFrame(ROOM)), Parse(m.ab).frame;
            && CanStep(m, x) && Step(m, x).a == m.a && Step(m, x).ab == Parse(m.ab).rest
            && Step(m, x).b.r.reading.leftover == []
            && Step(m, x).b.r.delivered == m.b.r.delivered + (if f.kind == DATA then f.payload else [])
    ensures |Parse(m.ab).rest| < |m.ab| && Decode(m.ab).frames == [Parse(m.ab).frame] + Decode(Parse(m.ab).rest).frames
  {
    ParseBounded(m.ab);
    assert Legal(Parse(m.ab).frame);
    hide Parse, SendChunk, Pong, Ping, GatherChunk, StopSender, SamplePong, Serve;
    var l := View(m, B);
    assert Apply(l, ReadFrame(ROOM)).e.r == Receive(l.e.r, Parse(l.incoming).frame, ROOM);
  }

  lemma {:induction false} ReadFrames(n: Net, m: Net, calls: bool) returns (m': Net)
    requires Leads(n, m, calls) && m.b.r.reading.leftover == []
    ensures Leads(n, m', calls) && m'.a == m.a && m'.b.r.reading.leftover == [] && Decode(m'.ab).frames == []
    ensures m'.b.r.delivered == m.b.r.delivered + DataOf(Decode(m.ab).frames)
    decreases |m.ab|
  {
    hide Leads, Parse, DataOf;
    if Parse(m.ab).Err? {
      m' := m;
      NoData();
    } else {
      var x, f := Label(B, ReadFrame(ROOM)), Parse(m.ab).frame;
      ReadEffect(m);
      hide CanStep, Step, Decode;
      LeadsStep(n, m, x, calls);
      m' := ReadFrames(n, Step(m, x), calls);
      DataAppend([f], Decode(Parse(m.ab).rest).frames);
      DataOne(f);
    }
  }

  lemma NoData()
    ensures DataOf([]) == []
  {
  }

  /** The peer reads everything that has arrived. */
  lemma ReadAll(n: Net, m: Net, calls: bool) returns (m': Net)
    requires Leads(n, m, calls)
    ensures Leads(n, m', calls) && m'.a == m.a && m'.b.r.reading.leftover == [] && Decode(m'.ab).frames == []
    ensures m'.b.r.delivered == m.b.r.delivered + m.b.r.reading.leftover + DataOf(Decode(m.ab).frames)
  {
    hide Leads, Decode, DataOf;
    m' := m;
    if m.b.r.reading.leftover != [] {
      var x := Label(B, ReadLeftover(|m.b.r.reading.leftover|));
      LeftoverEffect(m);
      hide CanStep, Step;
      LeadsStep(n, m, x, calls);
      m' := Step(m, x);
    }
    m' := ReadFrames(n, m', calls);
  }
}
