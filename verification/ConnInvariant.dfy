/** What every step of an endpoint keeps, and hence every interleaving of two endpoints. */
module ConnInvariant {
  import opened Bytes
  import opened FrameCodec
  import opened FrameStream
  import opened Conn
  import Fragment

  // ----- readings of the history -----

  /** All chunks the sender gathered, in order. */
  function AllChunks(gs: seq<Gathered>): seq<Chunk> {
    if gs == [] then [] else AllChunks(gs[..|gs| - 1]) + gs[|gs| - 1].chunks
  }

  /** The chunks of the bursts that were flushed. */
  function KeptChunks(gs: seq<Gathered>): seq<Chunk> {
    if gs == [] then []
    else KeptChunks(gs[..|gs| - 1]) + (if gs[|gs| - 1].flushed then gs[|gs| - 1].chunks else [])
  }

  function KeptBytes(gs: seq<Gathered>): seq<Byte> {
    Flatten(KeptChunks(gs))
  }

  /** The bytes of all gathered bursts; without those dropped; those sent; those given up. */
  function AllBytes(ps: seq<Piece>): seq<Byte> {
    if ps == [] then [] else AllBytes(ps[..|ps| - 1]) + ps[|ps| - 1].bytes
  }

  function FlushedBytes(ps: seq<Piece>): seq<Byte> {
    if ps == [] then []
    else FlushedBytes(ps[..|ps| - 1]) + (if ps[|ps| - 1].fate.Dropped? then [] else ps[|ps| - 1].bytes)
  }

  function SentBytes(ps: seq<Piece>): seq<Byte> {
    if ps == [] then []
    else SentBytes(ps[..|ps| - 1]) + (if ps[|ps| - 1].fate.Sent? then ps[|ps| - 1].bytes else [])
  }

  function LostBytes(ps: seq<Piece>): seq<Byte> {
    if ps == [] then []
    else LostBytes(ps[..|ps| - 1]) + (if ps[|ps| - 1].fate.Lost? then ps[|ps| - 1].bytes else [])
  }

  predicate Without(ps: seq<Piece>, fate: Fate) {
    forall i :: 0 <= i < |ps| ==> ps[i].fate != fate
  }

  predicate AllSent(ps: seq<Piece>) {
    Without(ps, Lost) && Without(ps, Dropped)
  }

  /** Nothing was sent after a piece of this fate. */
  predicate NotBefore(ps: seq<Piece>, fate: Fate) {
    forall i, j :: 0 <= i < j < |ps| && ps[j].fate.Sent? ==> ps[i].fate != fate
  }

  /** No gap: nothing was sent after bytes given up or dropped. */
  predicate SentFirst(ps: seq<Piece>) {
    NotBefore(ps, Lost) && NotBefore(ps, Dropped)
  }

  predicate AllFlushed(gs: seq<Gathered>) {
    forall i :: 0 <= i < |gs| ==> gs[i].flushed
  }

  /** The payloads of all PINGs read, and of those the queue had room for. */
  function PingPayloads(ps: seq<PingRead>): seq<Chunk> {
    if ps == [] then [] else PingPayloads(ps[..|ps| - 1]) + [ps[|ps| - 1].payload]
  }

  function QueuedPings(ps: seq<PingRead>): seq<Chunk> {
    if ps == [] then []
    else QueuedPings(ps[..|ps| - 1]) + (if ps[|ps| - 1].queued then [ps[|ps| - 1].payload] else [])
  }

  function CurrentBurst(p: Phase): seq<Chunk> {
    if p.Collecting? then p.burst else []
  }

  function Unsent(p: Phase): seq<Byte> {
    if p.Flushing? then p.remaining else []
  }

  predicate NonEmpty(chunks: seq<Chunk>) {
    forall i :: 0 <= i < |chunks| ==> chunks[i] != []
  }

  predicate Sendable(payloads: seq<Chunk>) {
    forall i :: 0 <= i < |payloads| ==> |payloads[i]| <= MAX_PAYLOAD
  }

  // ----- the local invariant -----

  /** Every accepted chunk is in exactly one place, in order. */
  ghost predicate ChunksKept(s: Sender) {
    && s.accepted == AllChunks(s.bursts) + CurrentBurst(s.phase) + s.inbox
    && (s.cancelled || AllFlushed(s.bursts))
    && NonEmpty(s.inbox) && NonEmpty(CurrentBurst(s.phase))
    && (s.phase.Collecting? ==> s.phase.burst != [])
    && |s.inbox| <= INBOX_CAPACITY
  }

  /** Every byte of the gathered bursts was sent, given up, dropped, or is about to be sent. */
  ghost predicate BytesKept(s: Sender, k: Link) {
    && Flatten(AllChunks(s.bursts)) == AllBytes(s.pieces) + Unsent(s.phase)
    && KeptBytes(s.bursts) == FlushedBytes(s.pieces) + Unsent(s.phase)
    && DataOf(k.sent) == SentBytes(s.pieces)
    && (s.phase.Flushing? ==> s.phase.remaining != [])
  }

  /** Bytes are given up only after an error and dropped only after cancellation. Without a failed
      padding draw an error means a failed channel, and nothing is sent after bytes given up. */
  ghost predicate FateKept(s: Sender, k: Link) {
    && (Without(s.pieces, Lost) || s.writeErr)
    && (Without(s.pieces, Dropped) || s.cancelled)
    && (s.writeErr ==> k.broken || s.skipped)
    && (s.skipped ==> s.writeErr)
    && (!s.skipped ==> NotBefore(s.pieces, Lost))
  }

  /** Every PING read was answered, failed to be answered, waits in the queue, or was dropped
      because the queue was full. */
  ghost predicate PingsKept(r: Receiver, k: Link) {
    && PingPayloads(r.pingsRead) == Payloads(r.received, PING)
    && QueuedPings(r.pingsRead) == Payloads(k.sent, PONG) + r.pongsFailed + r.reading.pings
    && (r.pongsFailed != [] ==> k.broken)
    && Sendable(r.reading.pings)
    && |r.reading.pings| <= CONTROL_CAPACITY && |r.reading.pongs| <= CONTROL_CAPACITY
  }

  /** The caller has read the DATA payloads received, but for the leftover buffer. */
  ghost predicate ReadsKept(r: Receiver) {
    DataOf(r.received) == r.delivered + r.reading.leftover
  }

  /** Each latency sample uses up one PING stamp and one PONG received. */
  ghost predicate SamplesKept(p: Pinger, r: Receiver) {
    && p.samples + (if p.pendingPing then 1 else 0) <= p.started
    && p.samples + |r.reading.pongs| <= |Payloads(r.received, PONG)|
  }

  ghost predicate LocalInv(e: Endpoint) {
    && ChunksKept(e.s) && BytesKept(e.s, e.k) && FateKept(e.s, e.k)
    && PingsKept(e.r, e.k) && ReadsKept(e.r) && SamplesKept(e.p, e.r)
  }

  /** The channel from tx to rx holds exactly the frames written and not yet read, followed by
      part of a frame only if the channel has failed; nothing on it is malformed. */
  ghost predicate ChannelInv(tx: Link, wire: seq<Byte>, rx: Receiver) {
    && tx.sent == rx.received + Decode(wire).frames
    && Decode(wire).error == EndOfStream
    && (tx.broken || Clean(wire))
  }

  ghost predicate Inv(l: Local, peer: Endpoint) {
    LocalInv(l.e) && ChannelInv(l.e.k, l.outgoing, peer.r) && ChannelInv(peer.k, l.incoming, l.e.r)
  }

  // ----- appending to the history -----

  lemma AppendGathered(gs: seq<Gathered>, g: Gathered)
    ensures AllChunks(gs + [g]) == AllChunks(gs) + g.chunks
    ensures Flatten(AllChunks(gs + [g])) == Flatten(AllChunks(gs)) + Flatten(g.chunks)
    ensures KeptBytes(gs + [g]) == KeptBytes(gs) + (if g.flushed then Flatten(g.chunks) else [])
  {
    assert (gs + [g])[..|gs|] == gs;
    FlattenAppend(AllChunks(gs), g.chunks);
    FlattenAppend(KeptChunks(gs), g.chunks);
    assert KeptChunks(gs) + [] == KeptChunks(gs);
  }

  lemma AppendPiece(ps: seq<Piece>, p: Piece)
    ensures AllBytes(ps + [p]) == AllBytes(ps) + p.bytes
    ensures FlushedBytes(ps + [p]) == FlushedBytes(ps) + (if p.fate.Dropped? then [] else p.bytes)
    ensures SentBytes(ps + [p]) == SentBytes(ps) + (if p.fate.Sent? then p.bytes else [])
    ensures LostBytes(ps + [p]) == LostBytes(ps) + (if p.fate.Lost? then p.bytes else [])
  {
    assert (ps + [p])[..|ps|] == ps;
  }

  lemma AppendFate(ps: seq<Piece>, p: Piece, fate: Fate)
    ensures Without(ps + [p], fate) <==> Without(ps, fate) && p.fate != fate
    ensures NotBefore(ps + [p], fate) <==> NotBefore(ps, fate) && (p.fate.Sent? ==> Without(ps, fate))
  {
    var all := ps + [p];
    assert all[|ps|] == p && forall i :: 0 <= i < |ps| ==> all[i] == ps[i];
  }

  lemma AppendPing(ps: seq<PingRead>, p: PingRead)
    ensures PingPayloads(ps + [p]) == PingPayloads(ps) + [p.payload]
    ensures QueuedPings(ps + [p]) == QueuedPings(ps) + (if p.queued then [p.payload] else [])
  {
    assert (ps + [p])[..|ps|] == ps;
  }

  lemma AppendFrame(fs: seq<Frame>, f: Frame, kind: Byte)
    ensures Payloads(fs + [f], kind) == Payloads(fs, kind) + (if f.kind == kind then [f.payload] else [])
  {
    PayloadsAppend(fs, [f], kind);
    assert Payloads([f], kind) == if f.kind == kind then [f.payload] else [];
  }

  lemma AppendData(fs: seq<Frame>, f: Frame)
    ensures DataOf(fs + [f]) == DataOf(fs) + (if f.kind == DATA then f.payload else [])
  {
    DataAppend(fs, [f]);
    DataOne(f);
  }

  // ----- writing a frame -----

  /** Writing keeps the channel in order, however the write ends. */
  lemma EmitKeepsChannel(k: Link, w: WireFrame, o: Outcome, wire: seq<Byte>, rx: Receiver)
    requires ChannelInv(k, wire, rx) && LegalWire(w)
    ensures ChannelInv(Emit(k, w, o), wire + Emitted(k, w, o), rx)
  {
    var bytes := Encode(w.frame, w.pad);
    if k.broken {
      assert wire + [] == wire;
    } else if Through(k, w, o) {
      DecodeWritten(wire, w.frame, w.pad);
      assert o.FailsAfter? ==> bytes[..Min(o.k, |bytes|)] == bytes;
      assert rx.received + Decode(wire).frames + [w.frame] == rx.received + (Decode(wire).frames + [w.frame]);
    } else {
      DecodeCut(wire, w.frame, w.pad, o.k);
    }
  }

  /** What a write adds to the DATA and PONG payloads sent. */
  lemma EmitPayloads(k: Link, w: WireFrame, o: Outcome)
    ensures var through := Through(k, w, o);
            && DataOf(Emit(k, w, o).sent) ==
               DataOf(k.sent) + (if through && w.frame.kind == DATA then w.frame.payload else [])
            && Payloads(Emit(k, w, o).sent, PONG) ==
               Payloads(k.sent, PONG) + (if through && w.frame.kind == PONG then [w.frame.payload] else [])
    ensures Through(k, w, o) ==> !k.broken
    ensures WriteOk(k, o) ==> Through(k, w, o)
    ensures k.broken ==> Emit(k, w, o).broken
  {
    AppendData(k.sent, w.frame);
    AppendFrame(k.sent, w.frame, PONG);
  }

  // ----- chunks -----

  lemma AcceptKeeps(s: Sender, b: Chunk)
    requires ChunksKept(s) && b != [] && s.callers > 0 && |s.inbox| < INBOX_CAPACITY
    ensures ChunksKept(Accept(s, b))
  {
    hide AllChunks;
  }

  lemma TakeKeeps(s: Sender)
    requires ChunksKept(s) && Selecting(s.phase) && s.inbox != []
    ensures ChunksKept(TakeChunk(s))
  {
    hide AllChunks;
    assert s.inbox == [s.inbox[0]] + s.inbox[1..];
  }

  lemma FirstNotEmpty(chunks: seq<Chunk>)
    requires chunks != [] && NonEmpty(chunks)
    ensures Flatten(chunks) != []
  {
  }

  lemma FlushKeepsChunks(s: Sender)
    requires ChunksKept(s) && s.phase.Collecting?
    ensures ChunksKept(BeginFlush(s)) && Flatten(s.phase.burst) != []
  {
    AppendGathered(s.bursts, Gathered(s.phase.burst, true));
    AppendFlushed(s.bursts, Gathered(s.phase.burst, true));
    FirstNotEmpty(s.phase.burst);
    ChunkMoves(AllChunks(s.bursts), s.phase.burst, s.inbox);
    hide AllChunks, AllFlushed, NonEmpty, Flatten, KeptBytes;
    NoChunks();
  }

  lemma AppendFlushed(gs: seq<Gathered>, g: Gathered)
    ensures AllFlushed(gs + [g]) <==> AllFlushed(gs) && g.flushed
  {
    var all := gs + [g];
    assert all[|gs|] == g && forall i :: 0 <= i < |gs| ==> all[i] == gs[i];
  }

  lemma ChunkMoves(a: seq<Chunk>, b: seq<Chunk>, c: seq<Chunk>)
    ensures a + b + c == (a + b) + [] + c
  {
  }

  lemma NoChunks()
    ensures NonEmpty([])
  {
  }

  lemma FlushKeeps(s: Sender, k: Link)
    requires ChunksKept(s) && BytesKept(s, k) && s.phase.Collecting?
    ensures ChunksKept(BeginFlush(s)) && BytesKept(BeginFlush(s), k)
  {
    FlushKeepsChunks(s);
    AppendGathered(s.bursts, Gathered(s.phase.burst, true));
    hide ChunksKept, AllChunks, KeptBytes, DataOf, Flatten, AllBytes, FlushedBytes, SentBytes;
    assert AllBytes(s.pieces) + [] == AllBytes(s.pieces) && FlushedBytes(s.pieces) + [] == FlushedBytes(s.pieces);
  }

  lemma GatherKeeps(s: Sender, k: Link)
    requires ChunksKept(s) && BytesKept(s, k) && s.phase.Collecting? && s.inbox != []
    ensures ChunksKept(GatherChunk(s)) && BytesKept(GatherChunk(s), k)
  {
    hide AllChunks, KeptBytes, DataOf, AllBytes, FlushedBytes, SentBytes;
    var s' := s.(inbox := s.inbox[1..], phase := Collecting(s.phase.burst + [s.inbox[0]]));
    assert s.inbox == [s.inbox[0]] + s.inbox[1..];
    assert ChunksKept(s') && BytesKept(s', k);
    FlushKeeps(s', k);
  }

  lemma StopKeeps(s: Sender, k: Link)
    requires ChunksKept(s) && BytesKept(s, k) && s.cancelled && (Selecting(s.phase) || s.phase.Collecting?)
    ensures ChunksKept(StopSender(s)) && BytesKept(StopSender(s), k)
    ensures FateKept(s, k) ==> FateKept(StopSender(s), k)
  {
    if s.phase.Collecting? {
      DropKeepsChunks(s);
      DropKeepsBytes(s, k);
      DropKeepsFate(s, k);
      hide ChunksKept, BytesKept, FateKept;
    } else {
      LeaveKeeps(s, k);
      hide ChunksKept, BytesKept, FateKept;
    }
  }

  /** Leaving a phase in which nothing is gathered or flushed. */
  lemma LeaveKeeps(s: Sender, k: Link)
    requires ChunksKept(s) && BytesKept(s, k) && Selecting(s.phase)
    ensures ChunksKept(StopSender(s)) && BytesKept(StopSender(s), k)
    ensures FateKept(s, k) ==> FateKept(StopSender(s), k)
  {
    assert CurrentBurst(StopSender(s).phase) == CurrentBurst(s.phase) && Unsent(StopSender(s).phase) == Unsent(s.phase);
  }

  /** A burst dropped on cancellation is accounted for as dropped. */
  lemma DropKeepsChunks(s: Sender)
    requires ChunksKept(s) && s.cancelled && s.phase.Collecting?
    ensures ChunksKept(StopSender(s))
  {
    AppendGathered(s.bursts, Gathered(s.phase.burst, false));
    ChunkMoves(AllChunks(s.bursts), s.phase.burst, s.inbox);
    hide AllChunks, AllFlushed, NonEmpty, Flatten, KeptBytes;
    NoChunks();
  }

  lemma DropKeepsBytes(s: Sender, k: Link)
    requires BytesKept(s, k) && s.phase.Collecting?
    ensures BytesKept(StopSender(s), k)
  {
    AppendGathered(s.bursts, Gathered(s.phase.burst, false));
    AppendPiece(s.pieces, Piece(Flatten(s.phase.burst), Dropped));
    hide AllChunks, KeptBytes, DataOf, Flatten, AllBytes, FlushedBytes, SentBytes;
    Blanks(AllBytes(s.pieces), Flatten(s.phase.burst));
    Blanks(FlushedBytes(s.pieces), []);
    Blanks(SentBytes(s.pieces), []);
    Blanks(KeptBytes(s.bursts), []);
  }

  lemma Blanks(a: seq<Byte>, b: seq<Byte>)
    ensures a + [] == a && (a + b) + [] == a + b && (a + []) + b == a + b
  {
  }

  lemma DropKeepsFate(s: Sender, k: Link)
    requires s.cancelled && s.phase.Collecting?
    ensures FateKept(s, k) ==> FateKept(StopSender(s), k)
  {
    var p := Piece(Flatten(s.phase.burst), Dropped);
    AppendFate(s.pieces, p, Lost);
    hide Without, NotBefore, Flatten;
  }

  // ----- frames -----

  /** Giving up the rest of a burst accounts for it as lost. */
  lemma GiveUpKeeps(s: Sender, k: Link, k': Link, skipped: bool)
    requires BytesKept(s, k) && FateKept(s, k) && s.phase.Flushing?
    requires DataOf(k'.sent) == DataOf(k.sent) && (skipped || s.skipped || k'.broken)
    ensures var s' := GiveUp(s, s.phase.remaining).(skipped := s.skipped || skipped);
            BytesKept(s', k') && FateKept(s', k')
  {
    var s', p := GiveUp(s, s.phase.remaining).(skipped := s.skipped || skipped), Piece(s.phase.remaining, Lost);
    AppendPiece(s.pieces, p);
    AppendFate(s.pieces, p, Lost);
    AppendFate(s.pieces, p, Dropped);
    hide AllChunks, KeptBytes, DataOf, Flatten, AllBytes, FlushedBytes, SentBytes, Without, NotBefore;
    Blanks(AllBytes(s.pieces), p.bytes);
    Blanks(FlushedBytes(s.pieces), p.bytes);
    Blanks(SentBytes(s.pieces), []);
    assert BytesKept(s', k');
  }

  /** A frame that reached the channel moves its payload from the remainder to the bytes sent. */
  lemma SentKeepsBytes(s: Sender, k: Link, k': Link, payload: seq<Byte>, rest: seq<Byte>, ok: bool)
    requires BytesKept(s, k) && s.phase == Flushing(payload + rest)
    requires DataOf(k'.sent) == DataOf(k.sent) + payload
    ensures BytesKept(AfterSend(s, ok, payload, rest), k')
  {
    var sent, lost := Piece(payload, Sent), Piece(rest, Lost);
    AppendPiece(s.pieces, sent);
    AppendPiece(s.pieces + [sent], lost);
    hide AllChunks, KeptBytes, DataOf, Flatten, AllBytes, FlushedBytes, SentBytes;
    MoveOver(AllBytes(s.pieces), payload, rest);
    MoveOver(FlushedBytes(s.pieces), payload, rest);
    Blanks(SentBytes(s.pieces), payload);
  }

  lemma MoveOver(a: seq<Byte>, b: seq<Byte>, c: seq<Byte>)
    ensures a + (b + c) == (a + b) + c && ((a + b) + c) + [] == (a + b) + c
  {
  }

  lemma SentKeepsFate(s: Sender, k: Link, payload: seq<Byte>, rest: seq<Byte>, ok: bool)
    requires FateKept(s, k) && !k.broken
    ensures FateKept(AfterSend(s, ok, payload, rest), Link(!ok, k.sent))
  {
    var sent, lost := Piece(payload, Sent), Piece(rest, Lost);
    AppendFate(s.pieces, sent, Lost);
    AppendFate(s.pieces, sent, Dropped);
    AppendFate(s.pieces + [sent], lost, Lost);
    AppendFate(s.pieces + [sent], lost, Dropped);
    hide Without, NotBefore;
  }

  /** Sending one fragment: its bytes are sent or, on an error, the rest of the burst is given up. */
  lemma SendKeeps(s: Sender, k: Link, d: Fragment.Draw, o: Outcome)
    requires BytesKept(s, k) && FateKept(s, k) && s.phase.Flushing?
    ensures var remaining := s.phase.remaining;
            var w := Fragment.NextFrame(d, remaining);
            var skip, cut := GiveUp(s, remaining).(skipped := true), GiveUp(s, remaining);
            var sent := AfterSend(s, WriteOk(k, o), w.frame.payload, remaining[|w.frame.payload|..]);
            if Fragment.PadFails(d, w) then BytesKept(skip, k) && FateKept(skip, k)
            else if Through(k, w, o) then BytesKept(sent, Emit(k, w, o)) && FateKept(sent, Emit(k, w, o))
            else BytesKept(cut, Emit(k, w, o)) && FateKept(cut, Emit(k, w, o))
  {
    var remaining := s.phase.remaining;
    var w := Fragment.NextFrame(d, remaining);
    var rest := remaining[|w.frame.payload|..];
    assert remaining == w.frame.payload + rest;
    EmitPayloads(k, w, o);
    hide BytesKept, DataOf, Payloads, Fragment.NextFrame, Without, NotBefore;
    if Fragment.PadFails(d, w) {
      GiveUpKeeps(s, k, k, true);
    } else if Through(k, w, o) {
      SentKeepsBytes(s, k, Emit(k, w, o), w.frame.payload, rest, WriteOk(k, o));
      SentKeepsFate(s, k, w.frame.payload, rest, WriteOk(k, o));
    } else {
      assert DataOf(k.sent) + [] == DataOf(k.sent);
      GiveUpKeeps(s, k, Emit(k, w, o), false);
      assert GiveUp(s, remaining).(skipped := s.skipped || false) == GiveUp(s, remaining);
    }
  }

  /** A frame of another kind does not disturb the burst or the PONGs. */
  lemma EmitKeeps(s: Sender, r: Receiver, k: Link, w: WireFrame, o: Outcome)
    ensures BytesKept(s, k) && w.frame.kind != DATA ==> BytesKept(s, Emit(k, w, o))
    ensures FateKept(s, k) ==> FateKept(s, Emit(k, w, o))
    ensures PingsKept(r, k) && w.frame.kind != PONG ==> PingsKept(r, Emit(k, w, o))
  {
    EmitPayloads(k, w, o);
    hide KeptBytes, DataOf, Payloads, QueuedPings, PingPayloads, Emit;
    assert DataOf(k.sent) + [] == DataOf(k.sent) && Payloads(k.sent, PONG) + [] == Payloads(k.sent, PONG);
  }

  lemma PongKeeps(r: Receiver, k: Link, o: Outcome)
    requires PingsKept(r, k) && r.reading.pings != []
    ensures var w := ControlFrame(PONG, r.reading.pings[0]);
            PingsKept(Dequeue(r, !Through(k, w, o)), Emit(k, w, o))
    ensures ReadsKept(r) ==> ReadsKept(Dequeue(r, false)) && ReadsKept(Dequeue(r, true))
  {
    var p, rest := r.reading.pings[0], r.reading.pings[1..];
    var w := ControlFrame(PONG, p);
    EmitPayloads(k, w, o);
    assert r.reading.pings == [p] + rest;
    PongMoves(Payloads(k.sent, PONG), r.pongsFailed, p, rest);
    hide Through, Payloads, QueuedPings, PingPayloads;
    assert Sendable(rest);
  }

  lemma PongMoves(pongs: seq<Chunk>, failed: seq<Chunk>, p: Chunk, rest: seq<Chunk>)
    ensures pongs + failed + ([p] + rest) == (pongs + []) + (failed + [p]) + rest
    ensures pongs + [] + ([p] + rest) == (pongs + [p]) + ([] + []) + rest
  {
  }

  // ----- reading -----

  lemma ServeKeeps(r: Receiver, k: Link, n: nat)
    requires ReadsKept(r) && PingsKept(r, k)
    ensures ReadsKept(Serve(r, n)) && PingsKept(Serve(r, n), k)
  {
    hide DataOf, Payloads, QueuedPings, PingPayloads;
    var m := Min(n, |r.reading.leftover|);
    assert r.reading.leftover == r.reading.leftover[..m] + r.reading.leftover[m..];
  }

  lemma ReceiveKeepsData(r: Receiver, f: Frame, n: nat)
    requires ReadsKept(r) && r.reading.leftover == []
    ensures ReadsKept(Receive(r, f, n))
  {
    AppendData(r.received, f);
    hide DataOf;
    var m := Min(n, |f.payload|);
    assert f.payload == f.payload[..m] + f.payload[m..];
    assert r.delivered + [] + f.payload == (r.delivered + f.payload[..m]) + ([] + f.payload[m..]);
  }

  lemma ReceiveKeepsSamples(p: Pinger, r: Receiver, f: Frame, n: nat)
    requires SamplesKept(p, r)
    ensures SamplesKept(p, Receive(r, f, n))
  {
    AppendFrame(r.received, f, PONG);
    hide Payloads;
  }

  lemma ReceiveKeepsPings(r: Receiver, k: Link, f: Frame, n: nat)
    requires PingsKept(r, k) && Legal(f)
    ensures PingsKept(Receive(r, f, n), k)
  {
    AppendFrame(r.received, f, PING);
    AppendPing(r.pingsRead, PingRead(f.payload, |r.reading.pings| < CONTROL_CAPACITY));
    hide Payloads, QueuedPings, PingPayloads;
    var answered := Payloads(k.sent, PONG) + r.pongsFailed;
    if f.kind == PING {
      assert answered + r.reading.pings + [f.payload] == answered + (r.reading.pings + [f.payload]);
      assert answered + r.reading.pings + [] == answered + r.reading.pings;
    } else {
      assert r.pingsRead + [] == r.pingsRead;
      assert Payloads(r.received, PING) + [] == Payloads(r.received, PING);
    }
  }

  lemma ReceiveKeepsChannel(tx: Link, wire: seq<Byte>, r: Receiver, n: nat)
    requires ChannelInv(tx, wire, r) && Parse(wire).Ok?
    ensures ChannelInv(tx, Parse(wire).rest, Receive(r, Parse(wire).frame, n)) && Legal(Parse(wire).frame)
  {
    var f, rest := Parse(wire).frame, Parse(wire).rest;
    ParseBounded(wire);
    assert Decode(wire) == Prepend([f], Decode(rest));
    hide Parse, Decode;
    assert r.received + ([f] + Decode(rest).frames) == r.received + [f] + Decode(rest).frames;
  }

  // ----- every action -----

  lemma PingStep(l: Local, payload: Chunk, o: Outcome, peer: Endpoint)
    requires Inv(l, peer) && |payload| <= MAX_PAYLOAD
    ensures Inv(Ping(l, payload, o), peer)
  {
    var w := ControlFrame(PING, payload);
    EmitKeeps(l.e.s, l.e.r, l.e.k, w, o);
    EmitKeepsChannel(l.e.k, w, o, l.outgoing, peer.r);
    hide ChunksKept, BytesKept, FateKept, PingsKept, ReadsKept, Emit, Emitted, WriteOk, ChannelInv, Payloads;
  }

  lemma ReadStep(l: Local, n: nat, peer: Endpoint)
    requires Inv(l, peer) && l.e.r.reading.leftover == [] && Parse(l.incoming).Ok?
    ensures var r := Receive(l.e.r, Parse(l.incoming).frame, n);
            Inv(l.(e := l.e.(r := r), incoming := Parse(l.incoming).rest), peer)
  {
    var f := Parse(l.incoming).frame;
    ReceiveKeepsChannel(peer.k, l.incoming, l.e.r, n);
    ReceiveKeepsData(l.e.r, f, n);
    ReceiveKeepsPings(l.e.r, l.e.k, f, n);
    ReceiveKeepsSamples(l.e.p, l.e.r, f, n);
    hide ChunksKept, BytesKept, FateKept, PingsKept, ReadsKept, SamplesKept, ChannelInv, Receive, Parse;
  }

  /** Any step of an endpoint keeps its invariant and both channels. */
  lemma StepKeeps(l: Local, a: Action, peer: Endpoint)
    requires Inv(l, peer) && Enabled(l, a)
    ensures Inv(Apply(l, a), peer)
  {
    var e := l.e;
    hide Parse, Decode, DataOf, Payloads, KeptBytes, AllChunks, QueuedPings, PingPayloads, AllBytes, FlushedBytes,
         SentBytes, Without, NotBefore, NonEmpty, AllFlushed, Sendable, Flatten, SendChunk, Pong, Ping, StopSender,
         Receive;
    match a
    case Write(b) => AcceptKeeps(e.s, b);
    case Take => TakeKeeps(e.s);
    case Gather => GatherKeeps(e.s, e.k);
    case WindowEnds => FlushKeeps(e.s, e.k);
    case SendData(d, o) => SendStep(l, d, o, peer);
    case AnswerPing(o) => PongStep(l, o, peer);
    case SendPing(payload, o) => PingStep(l, payload, o, peer);
    case SenderStops => StopKeeps(e.s, e.k);
    case ReadLeftover(n) => ServeKeeps(e.r, e.k, n);
    case ReadFrame(n) => ReadStep(l, n, peer);
    case _ =>
  }

  lemma SendKeepsChunks(s: Sender, ok: bool, payload: seq<Byte>, rest: seq<Byte>)
    requires ChunksKept(s) && s.phase.Flushing?
    ensures ChunksKept(GiveUp(s, rest)) && ChunksKept(GiveUp(s, rest).(skipped := true))
    ensures ChunksKept(AfterSend(s, ok, payload, rest))
  {
    hide AllChunks;
  }

  lemma SendStep(l: Local, d: Fragment.Draw, o: Outcome, peer: Endpoint)
    requires Inv(l, peer) && l.e.s.phase.Flushing?
    ensures Inv(SendChunk(l, d, o), peer)
  {
    var e, remaining := l.e, l.e.s.phase.remaining;
    var w := Fragment.NextFrame(d, remaining);
    SendKeeps(e.s, e.k, d, o);
    SendKeepsChunks(e.s, false, [], remaining);
    SendKeepsChunks(e.s, WriteOk(e.k, o), w.frame.payload, remaining[|w.frame.payload|..]);
    EmitKeeps(e.s, e.r, e.k, w, o);
    EmitKeepsChannel(e.k, w, o, l.outgoing, peer.r);
    hide ChunksKept, BytesKept, FateKept, PingsKept, ReadsKept, SamplesKept, ChannelInv, Emit, Emitted, Through,
         WriteOk, Fragment.NextFrame, Fragment.PadFails, GiveUp, AfterSend;
  }

  lemma ControlKeeps(s: Sender, k: Link)
    requires ChunksKept(s) && BytesKept(s, k)
    ensures ChunksKept(AfterControl(s)) && BytesKept(AfterControl(s), k)
    ensures FateKept(s, k) ==> FateKept(AfterControl(s), k)
  {
    hide AllChunks, KeptBytes, DataOf, AllBytes, FlushedBytes, SentBytes, Without, NotBefore;
  }

  lemma PongStep(l: Local, o: Outcome, peer: Endpoint)
    requires Inv(l, peer) && l.e.r.reading.pings != []
    ensures Inv(Pong(l, o), peer)
  {
    var e := l.e;
    var w := ControlFrame(PONG, e.r.reading.pings[0]);
    PongKeeps(e.r, e.k, o);
    EmitKeeps(e.s, e.r, e.k, w, o);
    EmitKeepsChannel(e.k, w, o, l.outgoing, peer.r);
    ControlKeeps(e.s, Emit(e.k, w, o));
    hide ChunksKept, BytesKept, FateKept, PingsKept, ReadsKept, Emit, Emitted, Through, AfterControl, Decode;
  }
}
