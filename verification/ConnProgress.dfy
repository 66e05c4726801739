/** What a connection can always still do: answer PINGs, measure latency, gather what is waiting, come
    to rest and shut down. Each result gives a schedule from every state it speaks of. */
module ConnProgress {
  import opened Bytes
  import opened FrameCodec
  import opened FrameStream
  import opened Conn
  import opened ConnInvariant
  import opened ConnRuns
  import opened ConnPaths
  import opened ConnShape
  import opened ConnClose
  import Fragment

  // ----- PINGs are answered -----

  /** Answering the first queued PING. */
  lemma AnswerEffect(m: Net)
    requires (Selecting(m.a.s.phase) || m.a.s.phase.Collecting?) && m.a.r.reading.pings != [] && !m.a.k.broken
    ensures CanStep(m, Label(A, AnswerPing(Succeeds)))
    ensures var m' := Step(m, Label(A, AnswerPing(Succeeds)));
            && m'.b == m.b && m'.a.p == m.a.p && !m'.a.k.broken && m'.a.s == AfterControl(m.a.s)
            && m'.a.r.reading.pings == m.a.r.reading.pings[1..]
            && Payloads(m'.a.k.sent, PONG) == Payloads(m.a.k.sent, PONG) + [m.a.r.reading.pings[0]]
  {
    var l, w := View(m, A), ControlFrame(PONG, m.a.r.reading.pings[0]);
    EmitPayloads(m.a.k, w, Succeeds);
    hide Payloads, DataOf, Parse, Encode, SendChunk, Ping, GatherChunk, StopSender, SamplePong, Serve, Receive;
    assert Apply(l, AnswerPing(Succeeds)) == Pong(l, Succeeds);
  }

  lemma {:induction false} AnswerQueue(n: Net, m: Net) returns (m': Net)
    requires Leads(n, m, false) && (Selecting(m.a.s.phase) || m.a.s.phase.Collecting?) && !m.a.k.broken
    ensures Leads(n, m', false) && m'.b == m.b && !m'.a.k.broken && m'.a.r.reading.pings == []
    ensures m'.a.s == if m.a.r.reading.pings == [] then m.a.s else AfterControl(m.a.s)
    ensures Payloads(m'.a.k.sent, PONG) == Payloads(m.a.k.sent, PONG) + m.a.r.reading.pings
    decreases |m.a.r.reading.pings|
  {
    hide Leads, Payloads;
    if m.a.r.reading.pings == [] {
      m' := m;
      assert Payloads(m.a.k.sent, PONG) + [] == Payloads(m.a.k.sent, PONG);
    } else {
      var x := Label(A, AnswerPing(Succeeds));
      AnswerEffect(m);
      LeadsStep(n, m, x, false);
      ControlTwice(m.a.s);
      hide CanStep, Step, AfterControl;
      m' := AnswerQueue(n, Step(m, x));
      QueueMoves(Payloads(m.a.k.sent, PONG), m.a.r.reading.pings);
    }
  }

  lemma QueueMoves(pongs: seq<Chunk>, q: seq<Chunk>)
    requires q != []
    ensures (pongs + [q[0]]) + q[1..] == pongs + q
  {
  }

  lemma ControlTwice(s: Sender)
    requires Selecting(s.phase) || s.phase.Collecting?
    ensures AfterControl(AfterControl(s)) == AfterControl(s)
    ensures Selecting(AfterControl(s).phase) || AfterControl(s).phase.Collecting?
  {
  }

  /** The phase in which a sender ends up that first finishes its flush and then answers PINGs: a
      control event cuts the drain short. */
  function PhaseAfterAnswer(p: Phase): Phase {
    if p.Flushing? || p.Draining? then Thinking else p
  }

  /** As long as the sender is running and the channel works, every queued PING can be answered, in
      order and with nothing else sent as a PONG, without cancelling and without new calls of Write. */
  lemma CanAnswer(n: Net) returns (n': Net)
    requires !n.a.s.phase.Exited? && !n.a.k.broken && n.a.r.reading.pings != []
    ensures Leads(n, n', false) && n'.a.s.cancelled == n.a.s.cancelled && n'.b == n.b
    ensures n'.a.r.reading.pings == [] && n'.a.s.phase == PhaseAfterAnswer(n.a.s.phase)
    ensures Payloads(n'.a.k.sent, PONG) == Payloads(n.a.k.sent, PONG) + n.a.r.reading.pings
  {
    LeadsSelf(n, false);
    hide Leads, Payloads, SentBytes;
    n' := n;
    if n.a.s.phase.Flushing? {
      n' := FinishFlush(n, n, false);
    }
    n' := AnswerQueue(n, n');
  }

  /** A sender that is gone or whose channel has failed writes no PONG any more. */
  predicate Mute(e: Endpoint) {
    e.s.phase.Exited? || e.k.broken
  }

  lemma MuteEmit(k: Link, w: WireFrame, o: Outcome)
    requires k.broken || w.frame.kind != PONG
    ensures Payloads(Emit(k, w, o).sent, PONG) == Payloads(k.sent, PONG)
    ensures k.broken ==> Emit(k, w, o).broken
  {
    EmitPayloads(k, w, o);
    hide Payloads;
    assert Payloads(k.sent, PONG) + [] == Payloads(k.sent, PONG);
  }

  lemma MuteStep(l: Local, a: Action)
    requires Mute(l.e) && Enabled(l, a)
    ensures Mute(Apply(l, a).e) && Payloads(Apply(l, a).e.k.sent, PONG) == Payloads(l.e.k.sent, PONG)
  {
    hide Payloads, Parse, Encode, TotalLen, Flatten;
    match a
    case SendData(d, o) => MuteEmit(l.e.k, Fragment.NextFrame(d, l.e.s.phase.remaining), o);
    case AnswerPing(o) => MuteEmit(l.e.k, ControlFrame(PONG, l.e.r.reading.pings[0]), o);
    case SendPing(payload, o) => MuteEmit(l.e.k, ControlFrame(PING, payload), o);
    case _ =>
  }

  lemma {:induction false} MuteRun(n: Net, run: seq<Label>)
    requires Mute(n.a) && Possible(n, run)
    ensures Payloads(Exec(n, run).a.k.sent, PONG) == Payloads(n.a.k.sent, PONG)
    decreases |run|
  {
    if run != [] {
      if run[0].side.A? {
        MuteStep(View(n, A), run[0].action);
      }
      hide Mute, Apply, Enabled, Payloads;
      MuteRun(Step(n, run[0]), run[1..]);
    }
  }

  /** The exact condition: a queued PING can still be answered if and only if the sender is running and
      the channel works. */
  lemma AnswerIff(n: Net)
    requires n.a.r.reading.pings != []
    ensures (exists n' :: Leads(n, n', true) && |Payloads(n'.a.k.sent, PONG)| > |Payloads(n.a.k.sent, PONG)|) <==>
            !n.a.s.phase.Exited? && !n.a.k.broken
  {
    if Mute(n.a) {
      forall n' | Leads(n, n', true) ensures |Payloads(n'.a.k.sent, PONG)| == |Payloads(n.a.k.sent, PONG)| {
        var run :| Possible(n, run) && n' == Exec(n, run);
        MuteRun(n, run);
      }
    } else {
      var n' := CanAnswer(n);
      LeadsMore(n, n');
    }
  }

  lemma LeadsMore(n: Net, n': Net)
    requires Leads(n, n', false)
    ensures Leads(n, n', true)
  {
  }

  // ----- latency samples -----

  /** A queued PONG is used up; it gives a sample exactly when a PING is pending. */
  lemma SampleEffect(m: Net)
    requires (m.a.s.phase.Draining? || m.a.s.phase.Thinking?) && m.a.r.reading.pongs != []
    ensures CanStep(m, Label(A, HandlePong))
    ensures var m' := Step(m, Label(A, HandlePong));
            && m'.a.r.reading.pongs == m.a.r.reading.pongs[1..] && !m'.a.p.pendingPing
            && m'.a.p.samples == m.a.p.samples + (if m.a.p.pendingPing then 1 else 0)
            && m'.a.s.phase == Thinking && m'.a.s.cancelled == m.a.s.cancelled
  {
    hide Parse, Encode, SendChunk, Ping, Pong, GatherChunk, StopSender, Serve, Receive;
  }

  /** Before any error and cancellation, with a working channel, a queued PONG can be turned into a
      sample; an idle sender first needs something to send. */
  lemma CanSample(n: Net) returns (n': Net)
    requires Reachable(n) && !n.a.s.cancelled && !n.a.s.writeErr && !n.a.k.broken && n.a.r.reading.pongs != []
    ensures Leads(n, n', true) && n'.a.r.reading.pongs == n.a.r.reading.pongs[1..]
    ensures n'.a.p.samples == n.a.p.samples + (if n.a.p.pendingPing then 1 else 0)
  {
    ReachableShape(n);
    LeadsSelf(n, true);
    hide Leads, Reachable, SentBytes, Payloads, Shape;
    n' := n;
    if n'.a.s.phase.Waiting? {
      n' := StartNewBurst(n, n');
    }
    if n'.a.s.phase.Collecting? {
      n' := CloseBurst(n, n', true);
    }
    if n'.a.s.phase.Flushing? {
      n' := FinishFlush(n, n', true);
    }
    SampleEffect(n');
    LeadsStep(n, n', Label(A, HandlePong), true);
    n' := Step(n', Label(A, HandlePong));
  }

  // ----- bursts gather what is waiting -----

  lemma GatherEffect(m: Net)
    requires m.a.s.phase.Collecting? && m.a.s.inbox != []
    requires TotalLen(m.a.s.phase.burst + [m.a.s.inbox[0]]) < m.a.s.maxBurst
    ensures CanStep(m, Label(A, Gather))
    ensures var m' := Step(m, Label(A, Gather));
            m' == m.(a := m.a.(s := m.a.s.(inbox := m.a.s.inbox[1..],
                                           phase := Collecting(m.a.s.phase.burst + [m.a.s.inbox[0]]))))
  {
    hide Parse, Encode, SendChunk, Ping, Pong, StopSender, SamplePong, Serve, Receive, TotalLen;
  }

  lemma ShorterTotal(a: seq<Chunk>, b: seq<Chunk>)
    ensures TotalLen(a) <= TotalLen(a + b)
  {
    FlattenAppend(a, b);
  }

  /** A burst can take in everything that waits in the inbox, if all of it stays below the limit, and
      then goes out as one. */
  lemma {:induction false} CanCoalesce(n: Net, m: Net) returns (m': Net)
    requires Leads(n, m, false) && m.a.s.phase.Collecting?
    requires TotalLen(m.a.s.phase.burst + m.a.s.inbox) < m.a.s.maxBurst
    ensures Leads(n, m', false) && m'.a.s.inbox == []
    ensures m'.a.s.phase == Flushing(Flatten(m.a.s.phase.burst + m.a.s.inbox))
    ensures m'.a.s.bursts == m.a.s.bursts + [Gathered(m.a.s.phase.burst + m.a.s.inbox, true)]
    decreases |m.a.s.inbox|
  {
    hide Leads, TotalLen, Flatten;
    var s := m.a.s;
    if s.inbox == [] {
      assert s.phase.burst + s.inbox == s.phase.burst;
      m' := CloseBurst(n, m, false);
    } else {
      var burst, rest := s.phase.burst + [s.inbox[0]], s.inbox[1..];
      assert s.phase.burst + s.inbox == burst + rest;
      ShorterTotal(burst, rest);
      GatherEffect(m);
      LeadsStep(n, m, Label(A, Gather), false);
      hide CanStep, Step;
      m' := CanCoalesce(n, Step(m, Label(A, Gather)));
    }
  }

  /** The inbox can be filled to its capacity: any 256 chunks can be waiting, in the order written. */
  lemma {:induction false} CanFill(max: nat, chunks: seq<Chunk>) returns (n: Net)
    requires NonEmpty(chunks) && |chunks| <= 256
    ensures Reachable(n)
    ensures n == Init(max, max).(a := Fresh(max).(s := Fresh(max).s.(inbox := chunks, accepted := chunks)))
  {
    if chunks == [] {
      n := Init(max, max);
      assert Possible(n, []) && Exec(n, []) == n;
    } else {
      var k := |chunks| - 1;
      n := CanFill(max, chunks[..k]);
      assert chunks == chunks[..k] + [chunks[k]];
      hide Reachable;
      n := ReachWrite(n, chunks[k]);
    }
  }

  // ----- rest and shutdown -----

  /** Before any error and cancellation, with a working channel, the sender can work off its inbox and
      come back to the idle state without new calls of Write. */
  lemma CanRest(n: Net) returns (n': Net)
    requires Reachable(n) && !n.a.s.cancelled && !n.a.s.writeErr && !n.a.k.broken
    ensures Leads(n, n', false) && n'.a.s.phase == Waiting && n'.a.s.mode == Idle && n'.a.s.inbox == []
    ensures n'.a.s.accepted == n.a.s.accepted && !n'.a.s.cancelled && !n'.a.s.writeErr
  {
    ReachableShape(n);
    LeadsSelf(n, false);
    hide Leads, Reachable, SentBytes, Payloads, LimitKept;
    n' := SendInbox(n, n);
    ReachableLeads(n, n', false);
    ReachableShape(n');
    if n'.a.s.phase.Draining? {
      LeadsStep(n, n', Label(A, DrainEnds), false);
      n' := Step(n', Label(A, DrainEnds));
    }
    if n'.a.s.phase.Thinking? {
      LeadsStep(n, n', Label(A, ThinkEnds), false);
      n' := Step(n', Label(A, ThinkEnds));
    }
  }

  /** The sender stops. */
  lemma StopTheSender(n: Net, m: Net) returns (m': Net)
    requires Leads(n, m, false) && m.a.s.cancelled
    ensures Leads(n, m', false) && m'.a.s.phase.Exited? && m'.a.s.cancelled
    ensures m'.a.p == m.a.p && m'.a.s.callers == m.a.s.callers
  {
    hide Leads, SentBytes, Payloads;
    m' := m;
    if m'.a.s.phase.Flushing? {
      m' := FinishFlush(n, m', false);
    }
    if !m'.a.s.phase.Exited? && !m'.a.s.phase.Waiting? {
      LeadsStep(n, m', Label(A, SenderStops), false);
      m' := Step(m', Label(A, SenderStops));
    }
    if m'.a.s.phase.Waiting? {
      LeadsStep(n, m', Label(A, SenderStops), false);
      m' := Step(m', Label(A, SenderStops));
    }
  }

  lemma PingReturns(m: Net)
    requires m.a.p.keepalive.Stamped?
    ensures CanStep(m, Label(A, SendPing(PING_PAYLOAD, Succeeds)))
    ensures var m' := Step(m, Label(A, SendPing(PING_PAYLOAD, Succeeds)));
            m'.a.s == m.a.s && (m'.a.p.keepalive.Sleeping? || m'.a.p.keepalive.Stopped?)
  {
    hide Parse, Encode, SendChunk, Pong, GatherChunk, StopSender, SamplePong, Serve, Receive, Emit;
    var l := View(m, A);
    assert Apply(l, SendPing(PING_PAYLOAD, Succeeds)) == Ping(l, PING_PAYLOAD, Succeeds);
  }

  /** The keepalive stops. */
  lemma StopTheKeepalive(n: Net, m: Net) returns (m': Net)
    requires Leads(n, m, false) && m.a.s.cancelled
    ensures Leads(n, m', false) && m'.a.p.keepalive.Stopped? && m'.a.s == m.a.s
  {
    hide Leads, Emit;
    m' := m;
    if m'.a.p.keepalive.Checked? {
      LeadsStep(n, m', Label(A, StampPing), false);
      m' := Step(m', Label(A, StampPing));
    }
    if m'.a.p.keepalive.Stamped? {
      var x := Label(A, SendPing(PING_PAYLOAD, Succeeds));
      PingReturns(m');
      LeadsStep(n, m', x, false);
      m' := Step(m', x);
    }
    if m'.a.p.keepalive.Sleeping? {
      LeadsStep(n, m', Label(A, KeepaliveStops), false);
      m' := Step(m', Label(A, KeepaliveStops));
    }
  }

  lemma {:induction false} LeaveCalls(n: Net, m: Net) returns (m': Net)
    requires Leads(n, m, false) && m.a.s.cancelled
    ensures Leads(n, m', false) && m'.a.s == m.a.s.(callers := 0) && m'.a.p == m.a.p
    decreases m.a.s.callers
  {
    hide Leads;
    m' := m;
    if m.a.s.callers > 0 {
      LeadsStep(n, m, Label(A, LeaveWrite), false);
      m' := LeaveCalls(n, Step(m, Label(A, LeaveWrite)));
    }
  }

  /** Close can complete from every state, whatever the channel does: after cancelling, both goroutines
      it waits for can end and every call of Write under way can return. */
  lemma CanClose(n: Net) returns (n': Net)
    ensures Leads(n, n', false) && n'.a.s.phase.Exited? && n'.a.p.keepalive.Stopped? && n'.a.s.callers == 0
  {
    LeadsSelf(n, false);
    hide Leads;
    LeadsStep(n, n, Label(A, Cancel), false);
    n' := Step(n, Label(A, Cancel));
    n' := StopTheSender(n, n');
    n' := StopTheKeepalive(n, n');
    n' := LeaveCalls(n, n');
  }
}
