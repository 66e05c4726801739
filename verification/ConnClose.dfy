/** When the peer can be left with a gap: the exact conditions, at Close and after failures. */
module ConnClose {
  import opened Bytes
  import opened FrameCodec
  import opened FrameStream
  import opened Conn
  import opened ConnInvariant
  import opened ConnRuns
  import opened ConnPaths
  import ConnShape
  import Fragment

  /** Chunks pending, and the burst being flushed. */
  function Work(s: Sender): nat {
    Pending(s) + (if s.phase.Flushing? then 1 else 0)
  }

  /** A sender still there, with two things to lose or send, or with one after something was lost. */
  predicate AtRisk(s: Sender) {
    !s.phase.Exited? && (Work(s) >= 2 || (Work(s) >= 1 && !AllSent(s.pieces)))
  }

  // ----- when no gap can follow -----

  /** There is no gap, and the channel has failed, or the sender is gone, or it is not at risk and no
      new calls of Write can put it at risk. */
  predicate Safe(s: Sender, k: Link, calls: bool) {
    SentFirst(s.pieces) && (k.broken || s.phase.Exited? || (!AtRisk(s) && (calls ==> s.writeErr)))
  }

  lemma SafeSend(s: Sender, k: Link, payload: seq<Byte>, rest: seq<Byte>, ok: bool, calls: bool)
    requires Safe(s, k, calls) && s.phase.Flushing?
    ensures Safe(GiveUp(s, rest), k, calls) && Safe(GiveUp(s, rest).(skipped := true), k, calls)
    ensures Safe(GiveUp(s, rest), Link(true, k.sent), calls)
    ensures !k.broken ==> Safe(AfterSend(s, ok, payload, rest), Link(!ok, k.sent), calls)
  {
    var sent, lost := Piece(payload, Sent), Piece(rest, Lost);
    AppendFate(s.pieces, lost, Lost);
    AppendFate(s.pieces, lost, Dropped);
    AppendFate(s.pieces, sent, Lost);
    AppendFate(s.pieces, sent, Dropped);
    AppendFate(s.pieces + [sent], lost, Lost);
    AppendFate(s.pieces + [sent], lost, Dropped);
    hide Without, NotBefore;
  }

  lemma SafeStop(s: Sender, k: Link, calls: bool)
    requires Safe(s, k, calls) && (Selecting(s.phase) || s.phase.Collecting?)
    ensures Safe(StopSender(s), k, calls)
  {
    if s.phase.Collecting? {
      AppendFate(s.pieces, Piece(Flatten(s.phase.burst), Dropped), Lost);
      AppendFate(s.pieces, Piece(Flatten(s.phase.burst), Dropped), Dropped);
    }
    hide Without, NotBefore, Flatten;
  }

  lemma SafeChunk(l: Local, d: Fragment.Draw, o: Outcome, calls: bool)
    requires Safe(l.e.s, l.e.k, calls) && l.e.s.phase.Flushing?
    ensures var l' := SendChunk(l, d, o); Safe(l'.e.s, l'.e.k, calls)
  {
    var remaining := l.e.s.phase.remaining;
    var w := Fragment.NextFrame(d, remaining);
    SafeSend(l.e.s, l.e.k, w.frame.payload, remaining, false, calls);
    SafeSend(l.e.s, l.e.k, w.frame.payload, remaining[|w.frame.payload|..], WriteOk(l.e.k, o), calls);
    SafeAnyLink(l.e.k, Emit(l.e.k, w, o));
    hide Fragment.NextFrame, Fragment.PadFails, Encode, AtRisk, SentFirst, GiveUp, AfterSend;
  }

  /** Only whether the channel works matters. */
  lemma SafeAnyLink(k: Link, k': Link)
    ensures forall s, calls :: k.broken == k'.broken && Safe(s, k, calls) ==> Safe(s, k', calls)
  {
  }

  lemma SafeStep(l: Local, a: Action, calls: bool)
    requires Safe(l.e.s, l.e.k, calls) && Enabled(l, a) && (calls || !a.EnterWrite?)
    ensures Safe(Apply(l, a).e.s, Apply(l, a).e.k, calls)
  {
    match a
    case SendData(d, o) => SafeChunk(l, d, o, calls); hide *;
    case SenderStops => SafeStop(l.e.s, l.e.k, calls); hide *;
    case _ => hide Parse, Emitted, Through, Flatten, TotalLen, Without, NotBefore, SendChunk, StopSender;
  }

  lemma {:induction false} SafeRun(n: Net, run: seq<Label>, calls: bool)
    requires Safe(n.a.s, n.a.k, calls) && Possible(n, run) && (calls || NoNewCalls(run))
    ensures Safe(Exec(n, run).a.s, Exec(n, run).a.k, calls)
    decreases |run|
  {
    if run != [] {
      if run[0].side.A? {
        SafeStep(View(n, A), run[0].action, calls);
      }
      hide Safe, Apply, Enabled;
      SafeRun(Step(n, run[0]), run[1..], calls);
    }
  }

  lemma SafeLeads(n: Net, n': Net, calls: bool)
    requires Safe(n.a.s, n.a.k, calls) && Leads(n, n', calls)
    ensures SentFirst(n'.a.s.pieces)
  {
    var run :| Possible(n, run) && (calls || NoNewCalls(run)) && n' == Exec(n, run);
    SafeRun(n, run, calls);
  }

  // ----- when one can -----

  lemma SentLater(ps: seq<Piece>, ps': seq<Piece>)
    requires !AllSent(ps) && ps < ps' && ps'[|ps'| - 1].fate.Sent?
    ensures !SentFirst(ps')
  {
    var i :| 0 <= i < |ps| && (ps[i].fate.Lost? || ps[i].fate.Dropped?);
    assert ps'[i] == ps[i];
  }

  lemma NotAllSent(ps: seq<Piece>, p: Piece)
    requires !p.fate.Sent?
    ensures !AllSent(ps + [p])
  {
    assert (ps + [p])[|ps|] == p;
  }

  /** Something is lost while something else is pending. */
  lemma LoseOne(n: Net, m: Net, calls: bool) returns (m': Net)
    requires Leads(n, m, calls) && !m.a.s.phase.Exited? && Work(m.a.s) >= 2
    ensures Leads(n, m', calls) && m'.b == m.b && m'.a.k == m.a.k
    ensures !m'.a.s.phase.Exited? && !m'.a.s.phase.Flushing? && Pending(m'.a.s) >= 1 && !AllSent(m'.a.s.pieces)
  {
    hide Leads, Without;
    if m.a.s.phase.Flushing? {
      m' := SkipFlush(n, m, calls);
      NotAllSent(m.a.s.pieces, Piece(m.a.s.phase.remaining, Lost));
    } else {
      m' := StartGathering(n, m, calls);
      NotAllSent(m.a.s.pieces, Piece(Flatten(m'.a.s.phase.burst), Dropped));
      m' := DropBurst(n, m', calls);
    }
  }

  /** On a working channel a sender at risk can come to send a burst after something was lost. */
  lemma ReachGap(n: Net, m: Net, calls: bool) returns (m': Net)
    requires Leads(n, m, calls) && AtRisk(m.a.s) && !m.a.k.broken
    ensures Leads(n, m', calls) && !m'.a.k.broken && !SentFirst(m'.a.s.pieces) && m'.a.s.phase.Draining?
  {
    hide Leads, Without, NotBefore, SentBytes;
    m' := m;
    if AllSent(m.a.s.pieces) {
      m' := LoseOne(n, m, calls);
    }
    if !m'.a.s.phase.Flushing? {
      m' := StartGathering(n, m', calls);
      m' := CloseBurst(n, m', calls);
    }
    var ps := m'.a.s.pieces;
    m' := FinishFlush(n, m', calls);
    SentLater(ps, m'.a.s.pieces);
  }

  /** Two new calls of Write put a running sender at risk. */
  lemma EnterTwice(n: Net) returns (m: Net)
    requires !n.a.s.phase.Exited? && !n.a.s.writeErr
    ensures Leads(n, m, true) && m.b == n.b && m.a.k == n.a.k && AtRisk(m.a.s)
  {
    var x := Label(A, EnterWrite);
    LeadsSelf(n, true);
    hide Leads, Without;
    LeadsStep(n, n, x, true);
    LeadsStep(n, Step(n, x), x, true);
    m := Step(Step(n, x), x);
  }

  /** The exact condition. From a state without a gap, some schedule leads to one with a gap if and
      only if the channel works and the sender is running and at risk or, where new calls of Write
      are allowed, has met no error yet. */
  lemma GapIff(n: Net, calls: bool)
    requires SentFirst(n.a.s.pieces)
    ensures (exists n' :: Leads(n, n', calls) && !SentFirst(n'.a.s.pieces)) <==>
            !n.a.k.broken && !n.a.s.phase.Exited? && (AtRisk(n.a.s) || (calls && !n.a.s.writeErr))
  {
    if Safe(n.a.s, n.a.k, calls) {
      forall n' | Leads(n, n', calls) ensures SentFirst(n'.a.s.pieces) {
        SafeLeads(n, n', calls);
      }
    } else {
      var m := n;
      if AtRisk(n.a.s) {
        LeadsSelf(n, calls);
      } else {
        m := EnterTwice(n);
      }
      var n' := ReachGap(n, m, calls);
    }
  }

  /** A gap reaches the peer: with the channel working, the peer can read everything sent, the bytes
      after the gap included. */
  lemma GapDelivered(n: Net, calls: bool) returns (n': Net)
    requires Reachable(n) && !n.a.k.broken && !n.a.s.phase.Exited?
    requires AtRisk(n.a.s) || (calls && !n.a.s.writeErr)
    ensures Leads(n, n', calls) && !SentFirst(n'.a.s.pieces) && n'.b.r.delivered == SentBytes(n'.a.s.pieces)
  {
    var m := n;
    if AtRisk(n.a.s) {
      LeadsSelf(n, calls);
    } else {
      m := EnterTwice(n);
    }
    hide Leads, Reachable, AtRisk;
    m := ReachGap(n, m, calls);
    n' := ReadSent(n, m, calls);
  }

  /** The peer reads everything sent. */
  lemma ReadSent(n: Net, m: Net, calls: bool) returns (m': Net)
    requires Reachable(n) && Leads(n, m, calls)
    ensures Leads(n, m', calls) && m'.a == m.a && m'.b.r.reading.leftover == [] && Decode(m'.ab).frames == []
    ensures m'.b.r.delivered == SentBytes(m'.a.s.pieces)
  {
    hide Leads, Reachable, Decode, DataOf, SentBytes, AllBytes;
    m' := ReadAll(n, m, calls);
    ReachableLeads(n, m', calls);
    BytesConserved(m');
    NoData();
  }

  // ----- Close -----

  /** The condition at the moment Close is called before any error, in terms of what the connection
      holds: schedules without further calls of Write leave no gap if and only if the channel has
      failed or at most one thing is under way, be it a chunk in the inbox, a call of Write, the
      burst being gathered or the burst being flushed. */
  lemma CloseSafeIff(n: Net)
    requires Reachable(n) && !n.a.s.cancelled && !n.a.s.writeErr
    ensures (forall n' :: Leads(n, n', false) ==> SentFirst(n'.a.s.pieces)) <==> n.a.k.broken || Work(n.a.s) <= 1
  {
    NoGapYet(n);
    ConnShape.ReachableShape(n);
    GapIff(n, false);
    hide Reachable, Leads, Without, NotBefore;
  }

  /** So closing in such a state keeps the peer on a prefix of what was written in every later state,
      whatever fails, as long as Write is not called again. */
  lemma CloseKeepsPrefix(n: Net, n': Net)
    requires Reachable(n) && !n.a.s.cancelled && !n.a.s.writeErr && (n.a.k.broken || Work(n.a.s) <= 1)
    requires Leads(n, n', false)
    ensures n'.b.r.delivered <= Flatten(n'.a.s.accepted)
  {
    CloseSafeIff(n);
    ReachableLeads(n, n', false);
    hide Leads, Reachable, NotBefore;
    PrefixWithoutGap(n');
  }

  /** Calls of Write that start after Close are still accepted: with them closing is safe only once
      the channel has failed. */
  lemma CloseThenWrite(n: Net)
    requires Reachable(n) && !n.a.s.cancelled && !n.a.s.writeErr
    ensures (forall n' :: Leads(n, n', true) ==> SentFirst(n'.a.s.pieces)) <==> n.a.k.broken
  {
    NoGapYet(n);
    ConnShape.ReachableShape(n);
    GapIff(n, true);
    hide Reachable, Leads, Without, NotBefore;
  }

  /** Once the channel has failed without a gap, the peer stays on a prefix for good. */
  lemma BrokenKeepsPrefix(n: Net, n': Net)
    requires Reachable(n) && SentFirst(n.a.s.pieces) && n.a.k.broken && Leads(n, n', true)
    ensures n'.b.r.delivered <= Flatten(n'.a.s.accepted)
  {
    GapIff(n, true);
    ReachableLeads(n, n', true);
    hide Leads, Reachable, NotBefore;
    PrefixWithoutGap(n');
  }

  // ----- a failed padding draw -----

  /** Right after a padding draw has failed on a working channel, the peer can come to read past the
      bytes given up if and only if a chunk is still pending; new calls of Write are refused. */
  lemma PadFailureGapIff(m: Net, d: Fragment.Draw, o: Outcome)
    requires m.a.s.phase.Flushing? && SentFirst(m.a.s.pieces) && !m.a.k.broken
    requires Fragment.PadFails(d, Fragment.NextFrame(d, m.a.s.phase.remaining))
    ensures var n := Step(m, Label(A, SendData(d, o)));
            (exists n' :: Leads(n, n', true) && !SentFirst(n'.a.s.pieces)) <==> Pending(n.a.s) > 0
  {
    var n, lost := Step(m, Label(A, SendData(d, o))), Piece(m.a.s.phase.remaining, Lost);
    PadFailEffect(m, d, o);
    AppendFate(m.a.s.pieces, lost, Lost);
    AppendFate(m.a.s.pieces, lost, Dropped);
    hide Without, NotBefore, Step, Leads;
    GapIff(n, true);
  }

  lemma PadFailEffect(m: Net, d: Fragment.Draw, o: Outcome)
    requires m.a.s.phase.Flushing? && Fragment.PadFails(d, Fragment.NextFrame(d, m.a.s.phase.remaining))
    ensures CanStep(m, Label(A, SendData(d, o)))
    ensures var n := Step(m, Label(A, SendData(d, o)));
            n.a.k == m.a.k && n.a.s == GiveUp(m.a.s, m.a.s.phase.remaining).(skipped := true)
  {
    hide Parse, Encode, Pong, Ping, GatherChunk, StopSender, SamplePong, Serve, Receive, Fragment.NextFrame;
    var l := View(m, A);
    assert Apply(l, SendData(d, o)) == SendChunk(l, d, o);
  }

  // ----- a gap from the start -----

  /** A sender holding chunks c1 and c2, cancelled while gathering c1. */
  function CancelledSender(max: nat, c1: Chunk, c2: Chunk): Sender {
    Sender(max, [c2], Collecting([c1]), Burst, true, false, 0, [c1, c2], [], [], false)
  }

  lemma ReachWritten(max: nat, c1: Chunk, c2: Chunk) returns (n: Net)
    requires c1 != [] && c2 != []
    ensures Reachable(n)
    ensures n == Init(max, max).(a := Fresh(max).(s := Fresh(max).s.(inbox := [c1, c2], accepted := [c1, c2])))
  {
    n := Init(max, max);
    assert Possible(n, []) && Exec(n, []) == n;
    hide Reachable;
    n := ReachWrite(n, c1);
    n := ReachWrite(n, c2);
  }

  lemma ReachCancelled(max: nat, c1: Chunk, c2: Chunk) returns (n: Net)
    requires c1 != [] && c2 != []
    ensures Reachable(n) && n == Init(max, max).(a := Fresh(max).(s := CancelledSender(max, c1, c2)))
  {
    n := ReachWritten(max, c1, c2);
    hide Reachable;
    ReachableStep(n, Label(A, Take));
    n := Step(n, Label(A, Take));
    ReachableStep(n, Label(A, Cancel));
    n := Step(n, Label(A, Cancel));
  }

  /** The cancelled burst is dropped and the sender starts flushing the next chunk. */
  lemma ReachFlushing(max: nat, c1: Chunk, c2: Chunk) returns (n: Net)
    requires c1 != [] && c2 != []
    ensures Reachable(n)
    ensures n == Init(max, max).(a := Fresh(max).(s :=
              Sender(max, [], Flushing(c2), Burst, true, false, 0, [c1, c2],
                     [Gathered([c1], false), Gathered([c2], true)], [Piece(c1, Dropped)], false)))
  {
    n := ReachCancelled(max, c1, c2);
    hide Reachable;
    FlattenOne(c1);
    FlattenOne(c2);
    ReachableStep(n, Label(A, SenderStops));
    n := Step(n, Label(A, SenderStops));
    ReachableStep(n, Label(A, Take));
    n := Step(n, Label(A, Take));
    ReachableStep(n, Label(A, WindowEnds));
    n := Step(n, Label(A, WindowEnds));
  }

  /** A burst is sent to the end and read. */
  lemma DeliverRest(n: Net, m: Net, calls: bool) returns (m': Net)
    requires Reachable(n) && Leads(n, m, calls) && m.a.s.phase.Flushing? && !m.a.k.broken
    ensures Leads(n, m', calls) && !m'.a.k.broken && WroteSome(m.a.s, m'.a.s)
    ensures m'.b.r.delivered == SentBytes(m.a.s.pieces) + m.a.s.phase.remaining
  {
    hide Leads, Reachable, Decode, SentBytes;
    m' := FinishFlush(n, m, calls);
    m' := ReadSent(n, m', calls);
  }

  lemma NoneSent(p: Piece)
    requires !p.fate.Sent?
    ensures SentBytes([p]) == [] && SentBytes([]) == []
  {
  }

  /** The prefix property really does end at cancellation: for any two chunks the peer can read the
      second without the first, no write having failed. */
  lemma GapReachable(c1: Chunk, c2: Chunk) returns (n: Net)
    requires c1 != [] && c2 != []
    ensures Reachable(n) && n.a.s.cancelled && !n.a.k.broken && !n.a.s.writeErr && n.a.s.accepted == [c1, c2]
    ensures n.b.r.delivered == c2
  {
    var m := ReachFlushing(1, c1, c2);
    LeadsSelf(m, false);
    NoneSent(Piece(c1, Dropped));
    hide Reachable, Leads, SentBytes;
    n := DeliverRest(m, m, false);
    ReachableLeads(m, n, false);
  }

  /** And it ends at a failed padding draw: for any two chunks the peer can read the second without
      the first, nothing being cancelled and the channel working. */
  lemma SkipReachable(c1: Chunk, c2: Chunk) returns (n: Net)
    requires c1 != [] && c2 != []
    ensures Reachable(n) && !n.a.s.cancelled && !n.a.k.broken && n.a.s.accepted == [c1, c2]
    ensures n.b.r.delivered == c2
  {
    var m := ReachWritten(1, c1, c2);
    LeadsSelf(m, false);
    FlattenOne(c1);
    FlattenOne(c2);
    NoneSent(Piece(c1, Lost));
    hide Reachable, Leads, SentBytes, Flatten;
    n := StartBurst(m, m, false);
    n := CloseBurst(m, n, false);
    n := SkipFlush(m, n, false);
    n := StartBurst(m, n, false);
    n := CloseBurst(m, n, false);
    n := DeliverRest(m, n, false);
    ReachableLeads(m, n, false);
  }

  // ----- everything can be delivered -----

  /** The sender works off its inbox. */
  lemma {:induction false} SendInbox(n: Net, m: Net) returns (m': Net)
    requires Leads(n, m, false) && !m.a.k.broken && !m.a.s.phase.Exited?
    ensures Leads(n, m', false) && !m'.a.k.broken && m'.a.s.inbox == []
    ensures !m'.a.s.phase.Collecting? && !m'.a.s.phase.Flushing?
    ensures m'.a.s.accepted == m.a.s.accepted && m'.a.s.cancelled == m.a.s.cancelled
    ensures m'.a.s.writeErr == m.a.s.writeErr
    decreases |m.a.s.inbox| + (if m.a.s.phase.Collecting? then 1 else 0)
  {
    hide Leads, SentBytes;
    m' := m;
    if m'.a.s.phase.Flushing? {
      m' := FinishFlush(n, m', false);
    }
    if m'.a.s.phase.Collecting? {
      m' := CloseBurst(n, m', false);
      m' := FinishFlush(n, m', false);
    }
    if m'.a.s.inbox != [] {
      m' := StartBurst(n, m', false);
      m' := CloseBurst(n, m', false);
      m' := FinishFlush(n, m', false);
      m' := SendInbox(n, m');
    }
  }

  /** Before any error and cancellation, some schedule without new calls of Write delivers everything
      accepted so far. It takes a size selector that returns. */
  lemma CanDeliver(n: Net) returns (n': Net)
    requires Reachable(n) && !n.a.s.cancelled && !n.a.s.writeErr && !n.a.k.broken
    ensures Leads(n, n', false) && n'.a.s.accepted == n.a.s.accepted
    ensures n'.b.r.delivered == Flatten(n.a.s.accepted)
  {
    ConnShape.ReachableShape(n);
    LeadsSelf(n, false);
    hide Reachable, Leads, Decode, SentBytes;
    n' := SendInbox(n, n);
    n' := ReadSent(n, n', false);
    ReachableLeads(n, n', false);
    QuiescentComplete(n');
  }
}
