/** Two endpoints joined by a pair of channels, over every interleaving of their goroutines. */
module ConnRuns {
  import opened Bytes
  import opened FrameCodec
  import opened FrameStream
  import opened Conn
  import opened ConnInvariant

  /** ab carries bytes from a to b, ba from b to a. */
  datatype Net = Net(a: Endpoint, b: Endpoint, ab: seq<Byte>, ba: seq<Byte>)

  datatype Side = A | B
  datatype Label = Label(side: Side, action: Action)

  function Init(maxBurstA: nat, maxBurstB: nat): Net {
    Net(Fresh(maxBurstA), Fresh(maxBurstB), [], [])
  }

  /** The network as one endpoint sees it. */
  function View(n: Net, side: Side): Local {
    if side.A? then Local(n.a, n.ba, n.ab) else Local(n.b, n.ab, n.ba)
  }

  function Update(n: Net, side: Side, l: Local): Net {
    if side.A? then Net(l.e, n.b, l.outgoing, l.incoming) else Net(n.a, l.e, l.incoming, l.outgoing)
  }

  predicate CanStep(n: Net, x: Label) {
    Enabled(View(n, x.side), x.action)
  }

  function Step(n: Net, x: Label): Net
    requires CanStep(n, x)
  {
    Update(n, x.side, Apply(View(n, x.side), x.action))
  }

  /** A schedule is possible from n when each of its steps is enabled in turn. */
  predicate Possible(n: Net, run: seq<Label>)
    decreases |run|
  {
    run == [] || (CanStep(n, run[0]) && Possible(Step(n, run[0]), run[1..]))
  }

  function Exec(n: Net, run: seq<Label>): Net
    requires Possible(n, run)
    decreases |run|
  {
    if run == [] then n else Exec(Step(n, run[0]), run[1..])
  }

  ghost predicate NetInv(n: Net) {
    && LocalInv(n.a) && LocalInv(n.b)
    && ChannelInv(n.a.k, n.ab, n.b.r) && ChannelInv(n.b.k, n.ba, n.a.r)
  }

  lemma InitInv(maxBurstA: nat, maxBurstB: nat)
    ensures NetInv(Init(maxBurstA, maxBurstB))
  {
    DecodeEmpty();
  }

  lemma {:induction false} RunInv(n: Net, run: seq<Label>)
    requires NetInv(n) && Possible(n, run)
    ensures NetInv(Exec(n, run))
    decreases |run|
  {
    if run != [] {
      var x := run[0];
      StepKeeps(View(n, x.side), x.action, if x.side.A? then n.b else n.a);
      hide Apply, Enabled, LocalInv, ChannelInv;
      RunInv(Step(n, x), run[1..]);
    }
  }

  /** The states some schedule reaches. */
  ghost predicate Reachable(n: Net) {
    exists ma: nat, mb: nat, run :: Possible(Init(ma, mb), run) && n == Exec(Init(ma, mb), run)
  }

  lemma ReachableInv(n: Net)
    requires Reachable(n)
    ensures NetInv(n)
  {
    var ma: nat, mb: nat, run :| Possible(Init(ma, mb), run) && n == Exec(Init(ma, mb), run);
    InitInv(ma, mb);
    RunInv(Init(ma, mb), run);
  }

  // ----- the byte stream -----

  /** The bytes sent are delivered, buffered or in flight, in this order. */
  lemma SentEquation(n: Net)
    requires NetInv(n)
    ensures SentBytes(n.a.s.pieces) == n.b.r.delivered + n.b.r.reading.leftover + DataOf(Decode(n.ab).frames)
  {
    DataAppend(n.b.r.received, Decode(n.ab).frames);
    hide Decode, DataOf, KeptBytes, AllBytes, FlushedBytes, SentBytes, Without, NotBefore;
  }

  lemma AcceptedEquation(s: Sender)
    requires ChunksKept(s)
    ensures Flatten(s.accepted) == Flatten(AllChunks(s.bursts)) + Flatten(CurrentBurst(s.phase)) + Flatten(s.inbox)
  {
    FlattenAppend(AllChunks(s.bursts) + CurrentBurst(s.phase), s.inbox);
    FlattenAppend(AllChunks(s.bursts), CurrentBurst(s.phase));
  }

  /** Conservation, in every reachable state, after cancellation and failures of every kind: the
      accepted bytes are, in order, the bytes of the gathered bursts, each sent, given up or dropped,
      those unsent, those being gathered and those in the inbox; and the bytes sent are, in order,
      delivered, in the peer's leftover buffer or in flight. */
  lemma BytesConserved(n: Net)
    requires Reachable(n)
    ensures Flatten(n.a.s.accepted) ==
            AllBytes(n.a.s.pieces) + Unsent(n.a.s.phase) + Flatten(CurrentBurst(n.a.s.phase)) + Flatten(n.a.s.inbox)
    ensures SentBytes(n.a.s.pieces) == n.b.r.delivered + n.b.r.reading.leftover + DataOf(Decode(n.ab).frames)
  {
    ReachableInv(n);
    SentEquation(n);
    AcceptedEquation(n.a.s);
    hide *;
  }

  /** A history split into its last piece and the pieces before it. */
  lemma LastPiece(ps: seq<Piece>) returns (init: seq<Piece>, p: Piece)
    requires ps != []
    ensures ps == init + [p]
    ensures AllBytes(ps) == AllBytes(init) + p.bytes
    ensures FlushedBytes(ps) == FlushedBytes(init) + (if p.fate.Dropped? then [] else p.bytes)
    ensures SentBytes(ps) == SentBytes(init) + (if p.fate.Sent? then p.bytes else [])
    ensures LostBytes(ps) == LostBytes(init) + (if p.fate.Lost? then p.bytes else [])
    ensures forall f :: Without(ps, f) <==> Without(init, f) && p.fate != f
    ensures forall f :: NotBefore(ps, f) <==> NotBefore(init, f) && (p.fate.Sent? ==> Without(init, f))
  {
    init, p := ps[..|ps| - 1], ps[|ps| - 1];
    assert ps == init + [p];
    AppendPiece(init, p);
    forall f ensures Without(ps, f) <==> Without(init, f) && p.fate != f {
      AppendFate(init, p, f);
    }
    forall f ensures NotBefore(ps, f) <==> NotBefore(init, f) && (p.fate.Sent? ==> Without(init, f)) {
      AppendFate(init, p, f);
    }
  }

  lemma {:induction false} NothingLost(ps: seq<Piece>)
    requires Without(ps, Lost)
    ensures NotBefore(ps, Lost) && LostBytes(ps) == [] && FlushedBytes(ps) == SentBytes(ps)
    decreases |ps|
  {
    if ps != [] {
      var init, p := LastPiece(ps);
      hide Without, NotBefore, FlushedBytes, SentBytes, LostBytes;
      NothingLost(init);
    }
  }

  lemma {:induction false} NothingDropped(ps: seq<Piece>)
    requires Without(ps, Dropped)
    ensures NotBefore(ps, Dropped) && AllBytes(ps) == FlushedBytes(ps)
    decreases |ps|
  {
    if ps != [] {
      var init, p := LastPiece(ps);
      hide Without, NotBefore, AllBytes, FlushedBytes;
      NothingDropped(init);
    }
  }

  /** When nothing is sent after bytes given up, the flushed bytes are those sent and then those
      given up. */
  lemma {:induction false} SentThenLost(ps: seq<Piece>)
    requires NotBefore(ps, Lost)
    ensures FlushedBytes(ps) == SentBytes(ps) + LostBytes(ps)
    decreases |ps|
  {
    if ps != [] {
      var init, p := LastPiece(ps);
      SentThenLost(init);
      if p.fate.Sent? {
        NothingLost(init);
      }
      hide Without, NotBefore, FlushedBytes, SentBytes, LostBytes;
      PieceMoves(SentBytes(init), LostBytes(init), p.bytes);
    }
  }

  lemma PieceMoves(sent: seq<Byte>, lost: seq<Byte>, bytes: seq<Byte>)
    ensures (sent + lost) + bytes == (sent + []) + (lost + bytes)
    ensures (sent + lost) + [] == (sent + []) + (lost + [])
    ensures lost == [] ==> (sent + lost) + bytes == (sent + bytes) + (lost + [])
  {
  }

  /** Without a gap the bytes sent are a prefix of all bytes gathered. */
  lemma {:induction false} SentIsPrefix(ps: seq<Piece>)
    requires SentFirst(ps)
    ensures SentBytes(ps) <= AllBytes(ps)
    decreases |ps|
  {
    if ps != [] {
      var init, p := LastPiece(ps);
      SentIsPrefix(init);
      if p.fate.Sent? {
        NothingLost(init);
        NothingDropped(init);
      }
      hide Without, NotBefore, AllBytes, FlushedBytes, SentBytes;
    }
  }

  /** So as long as the writer is not cancelled and no padding draw has failed, accepted bytes are, in
      order, delivered, left over, in flight, lost to a failed channel, unsent, being gathered or in
      the inbox, whatever happens to the channel; the peer has always read a prefix of what was
      written, and nothing is lost before a DATA write fails. */
  lemma StreamConserved(n: Net)
    requires Reachable(n) && !n.a.s.cancelled && !n.a.s.skipped
    ensures Flatten(n.a.s.accepted) ==
            n.b.r.delivered + n.b.r.reading.leftover + DataOf(Decode(n.ab).frames) + LostBytes(n.a.s.pieces)
            + Unsent(n.a.s.phase) + Flatten(CurrentBurst(n.a.s.phase)) + Flatten(n.a.s.inbox)
    ensures !n.a.s.writeErr ==> LostBytes(n.a.s.pieces) == []
    ensures n.b.r.delivered <= Flatten(n.a.s.accepted)
  {
    ReachableInv(n);
    BytesConserved(n);
    NothingDropped(n.a.s.pieces);
    SentThenLost(n.a.s.pieces);
    if !n.a.s.writeErr {
      NothingLost(n.a.s.pieces);
    }
    hide *;
  }

  /** Before any error nothing is lost, and before cancellation nothing is dropped. */
  lemma NoGapYet(n: Net)
    requires Reachable(n) && !n.a.s.writeErr && !n.a.s.cancelled
    ensures !n.a.s.skipped && AllSent(n.a.s.pieces) && SentFirst(n.a.s.pieces)
  {
    ReachableInv(n);
    NothingLost(n.a.s.pieces);
    NothingDropped(n.a.s.pieces);
  }

  /** When no DATA write has failed and nothing is left anywhere on the way, everything accepted has
      been delivered. */
  lemma QuiescentComplete(n: Net)
    requires Reachable(n) && !n.a.s.cancelled && !n.a.s.writeErr
    requires n.a.s.inbox == [] && !n.a.s.phase.Collecting? && !n.a.s.phase.Flushing?
    requires Decode(n.ab).frames == [] && n.b.r.reading.leftover == []
    ensures n.b.r.delivered == Flatten(n.a.s.accepted)
  {
    NoGapYet(n);
    StreamConserved(n);
    hide Reachable, Decode, LostBytes, Without, NotBefore;
  }

  lemma {:induction false} KeptSubsequence(gs: seq<Gathered>)
    ensures Subsequence(KeptChunks(gs), AllChunks(gs))
  {
    if gs != [] {
      var init, g := gs[..|gs| - 1], gs[|gs| - 1];
      KeptSubsequence(init);
      if g.flushed {
        SubsequenceSelf(g.chunks);
      }
      SubsequenceJoin(KeptChunks(init), AllChunks(init), if g.flushed then g.chunks else [], g.chunks);
    }
  }

  lemma {:induction false} SentSubsequence(ps: seq<Piece>)
    ensures Subsequence(SentBytes(ps), FlushedBytes(ps))
    decreases |ps|
  {
    if ps != [] {
      var init, p := LastPiece(ps);
      SentSubsequence(init);
      var sent := if p.fate.Sent? then p.bytes else [];
      var flushed := if p.fate.Dropped? then [] else p.bytes;
      SubsequenceSelf(p.bytes);
      NothingIsSubsequence(flushed);
      hide Subsequence, SentBytes, FlushedBytes, Without, NotBefore;
      SubsequenceJoin(SentBytes(init), FlushedBytes(init), sent, flushed);
    }
  }

  lemma SentOfKept(s: Sender, k: Link)
    requires BytesKept(s, k)
    ensures Subsequence(SentBytes(s.pieces), KeptBytes(s.bursts))
    ensures NotBefore(s.pieces, Lost) ==> SentBytes(s.pieces) <= KeptBytes(s.bursts)
  {
    SentSubsequence(s.pieces);
    if NotBefore(s.pieces, Lost) {
      SentThenLost(s.pieces);
    }
    hide Subsequence, KeptBytes, DataOf, AllBytes, FlushedBytes, SentBytes, LostBytes, NotBefore;
    NothingIsSubsequence(Unsent(s.phase));
    SubsequenceJoin(SentBytes(s.pieces), FlushedBytes(s.pieces), [], Unsent(s.phase));
    assert SentBytes(s.pieces) + [] == SentBytes(s.pieces);
  }

  /** In every reachable state, after cancellation and failures of every kind: each gathered burst was
      kept or dropped whole, nothing is dropped before cancellation, and what the peer has read is a
      prefix of the bytes sent, which are a subsequence of the kept bursts, whose chunks are an
      ordered subsequence of the chunks accepted. Without a failed padding draw what the peer has
      read is a prefix of the kept bursts. */
  lemma PrefixOfKept(n: Net)
    requires Reachable(n)
    ensures n.b.r.delivered + n.b.r.reading.leftover <= SentBytes(n.a.s.pieces)
    ensures Subsequence(SentBytes(n.a.s.pieces), KeptBytes(n.a.s.bursts))
    ensures !n.a.s.skipped ==> n.b.r.delivered + n.b.r.reading.leftover <= KeptBytes(n.a.s.bursts)
    ensures Subsequence(KeptChunks(n.a.s.bursts), n.a.s.accepted)
    ensures !n.a.s.cancelled ==> AllFlushed(n.a.s.bursts)
  {
    ReachableInv(n);
    SentEquation(n);
    SentOfKept(n.a.s, n.a.k);
    KeptSubsequence(n.a.s.bursts);
    ExtendSubsequence(n.a.s);
    hide NetInv, Reachable, Decode, DataOf, KeptBytes, Subsequence, SentBytes, NotBefore;
  }

  lemma ExtendSubsequence(s: Sender)
    requires ChunksKept(s) && Subsequence(KeptChunks(s.bursts), AllChunks(s.bursts))
    ensures Subsequence(KeptChunks(s.bursts), s.accepted)
  {
    hide Subsequence, KeptChunks, AllChunks;
    var kept, all, tail := KeptChunks(s.bursts), AllChunks(s.bursts), CurrentBurst(s.phase) + s.inbox;
    NothingIsSubsequence(tail);
    SubsequenceJoin(kept, all, [], tail);
    assert kept + [] == kept && s.accepted == all + tail;
  }

  /** Until a DATA write fails, a flushed burst is sent whole: every byte of the kept bursts is
      delivered, buffered, in flight or still unsent. */
  lemma KeptSentWhole(n: Net)
    requires Reachable(n) && !n.a.s.writeErr
    ensures KeptBytes(n.a.s.bursts) ==
            n.b.r.delivered + n.b.r.reading.leftover + DataOf(Decode(n.ab).frames) + Unsent(n.a.s.phase)
  {
    ReachableInv(n);
    SentEquation(n);
    NothingLost(n.a.s.pieces);
    hide Reachable, Decode, DataOf, KeptBytes, AllBytes, FlushedBytes, SentBytes, LostBytes, NotBefore;
  }

  /** In every reachable state without a gap, after cancellation and failures too, the peer has read
      a prefix of what was written. */
  lemma PrefixWithoutGap(n: Net)
    requires Reachable(n) && SentFirst(n.a.s.pieces)
    ensures SentBytes(n.a.s.pieces) <= Flatten(n.a.s.accepted)
    ensures n.b.r.delivered <= Flatten(n.a.s.accepted)
  {
    BytesConserved(n);
    SentIsPrefix(n.a.s.pieces);
    hide *;
  }

  lemma {:induction false} ExecSnoc(n: Net, run: seq<Label>, x: Label)
    requires Possible(n, run) && CanStep(Exec(n, run), x)
    ensures Possible(n, run + [x]) && Exec(n, run + [x]) == Step(Exec(n, run), x)
    decreases |run|
  {
    hide CanStep, Step;
    if run == [] {
      assert run + [x] == [x];
      assert Possible(Step(n, x), []);
    } else {
      assert (run + [x])[1..] == run[1..] + [x];
      ExecSnoc(Step(n, run[0]), run[1..], x);
    }
  }

  lemma ReachableStep(n: Net, x: Label)
    requires Reachable(n) && CanStep(n, x)
    ensures Reachable(Step(n, x))
  {
    var ma: nat, mb: nat, run :| Possible(Init(ma, mb), run) && n == Exec(Init(ma, mb), run);
    ExecSnoc(Init(ma, mb), run, x);
  }

  // ----- control frames -----

  /** Control frames end to end: the PONG payloads b wrote, with those a failed channel did not
      take and those still queued, are the PINGs b read that found room in the queue; b's reads are
      a prefix of a's PINGs; so every PONG payload a reads back echoes, in order and at most once,
      a PING a sent. */
  lemma PongsEchoPings(n: Net)
    requires Reachable(n)
    ensures Payloads(n.b.k.sent, PONG) + n.b.r.pongsFailed + n.b.r.reading.pings == QueuedPings(n.b.r.pingsRead)
    ensures n.b.r.pongsFailed != [] ==> n.b.k.broken
    ensures PingPayloads(n.b.r.pingsRead) <= Payloads(n.a.k.sent, PING)
    ensures Payloads(n.a.r.received, PONG) <= Payloads(n.b.k.sent, PONG)
    ensures Subsequence(Payloads(n.a.r.received, PONG), Payloads(n.a.k.sent, PING))
  {
    ReachableInv(n);
    hide Decode, Exec, Possible, Reachable;
    PayloadsAppend(n.b.r.received, Decode(n.ab).frames, PING);
    PayloadsAppend(n.a.r.received, Decode(n.ba).frames, PONG);
    QueuedSubsequence(n.b.r.pingsRead);
    hide Payloads, QueuedPings, PingPayloads;
    var pongs := Payloads(n.a.r.received, PONG);
    var queued, read := QueuedPings(n.b.r.pingsRead), PingPayloads(n.b.r.pingsRead);
    PrefixSubsequence(pongs, queued, read);
    var pings := Payloads(n.a.k.sent, PING);
    NothingIsSubsequence(pings[|read|..]);
    SubsequenceJoin(pongs, read, [], pings[|read|..]);
    assert pongs + [] == pongs && read + pings[|read|..] == pings;
  }

  lemma {:induction false} QueuedSubsequence(ps: seq<PingRead>)
    ensures Subsequence(QueuedPings(ps), PingPayloads(ps))
  {
    if ps != [] {
      var init, p := ps[..|ps| - 1], ps[|ps| - 1];
      QueuedSubsequence(init);
      SubsequenceJoin(QueuedPings(init), PingPayloads(init), if p.queued then [p.payload] else [], [p.payload]);
    }
  }

  /** Nothing but DATA payloads reaches the caller of Read, in the order received, and Read never
      meets a malformed frame. */
  lemma OnlyDataDelivered(n: Net)
    requires Reachable(n)
    ensures n.b.r.delivered + n.b.r.reading.leftover == DataOf(n.b.r.received)
    ensures n.b.r.received <= n.a.k.sent
    ensures Parse(n.ab).Err? ==> Parse(n.ab).error == EndOfStream
  {
    ReachableInv(n);
  }

  /** Latency samples never outnumber the PINGs sent. */
  lemma SamplesBounded(n: Net)
    requires Reachable(n)
    ensures n.a.p.samples <= |Payloads(n.a.k.sent, PING)|
  {
    ReachableInv(n);
    PongsEchoPings(n);
    SubsequenceLength(Payloads(n.a.r.received, PONG), Payloads(n.a.k.sent, PING));
    hide Payloads, Reachable, Subsequence;
  }

  /** Inbox and control queues stay within their capacities. */
  lemma QueuesBounded(n: Net)
    requires Reachable(n)
    ensures |n.a.s.inbox| <= 256 && |n.a.r.reading.pings| <= 4 && |n.a.r.reading.pongs| <= 4
  {
    ReachableInv(n);
  }
}
