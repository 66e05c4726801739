/** One endpoint of a shaped connection (internal/bcl/conn.go) as a state machine.

    The application writes into the inbox, the sender goroutine gathers bursts and flushes them as
    DATA frames, the keepalive goroutine writes PINGs, and Read takes frames off the incoming
    channel. Every action below is one step of one goroutine; goroutines interleave freely.
    Writing one frame is a single step, timers may fire at any moment, and a channel that has
    failed once keeps failing. */
module Conn {
  import opened Bytes
  import opened FrameCodec
  import opened FrameStream
  import Fragment

  type Chunk = seq<Byte>

  const INBOX_CAPACITY := 256
  const CONTROL_CAPACITY := 4

  /** The fixed bytes that randomBytes(8) produces. What is proved holds for PINGs with any payload. */
  const PING_PAYLOAD: Chunk := [17, 25, 33, 41, 49, 57, 65, 73]

  // ----- the reading side -----

  /** Bytes of a frame not yet handed out, and the queued control payloads. */
  datatype ReadState = ReadState(leftover: seq<Byte>, pings: seq<Chunk>, pongs: seq<Chunk>)

  /** A non-blocking send to a four-slot channel. */
  function Offer(q: seq<Chunk>, p: Chunk): seq<Chunk> {
    if |q| < CONTROL_CAPACITY then q + [p] else q
  }

  /** What Read does with one frame, the caller's buffer having n bytes: the new state and the
      bytes handed to the caller. */
  function OnFrame(r: ReadState, f: Frame, n: nat): (ReadState, seq<Byte>) {
    if f.kind == DATA then
      var k := Min(n, |f.payload|);
      (r.(leftover := r.leftover + f.payload[k..]), f.payload[..k])
    else if f.kind == PING then (r.(pings := Offer(r.pings, f.payload)), [])
    else if f.kind == PONG then (r.(pongs := Offer(r.pongs, f.payload)), [])
    else (r, [])
  }

  // ----- endpoint state -----

  /** Where the sender goroutine is. */
  datatype Phase =
    | Waiting
    | Collecting(burst: seq<Chunk>)
    | Flushing(remaining: seq<Byte>)
    | Draining
    | Thinking
    | Exited

  /** The published connection state that the keepalive goroutine looks at. */
  datatype Mode = Idle | Burst | Drain | Think

  datatype Keepalive = Sleeping | Checked | Stamped | Stopped

  /** A gathered burst and whether it was flushed or dropped on cancellation. */
  datatype Gathered = Gathered(chunks: seq<Chunk>, flushed: bool)

  /** A PING that Read took off the channel and whether the queue had room for it. */
  datatype PingRead = PingRead(payload: Chunk, queued: bool)

  /** What became of consecutive bytes of the gathered bursts: sent in a frame, given up after an
      error, or dropped with their burst on cancellation. */
  datatype Fate = Sent | Lost | Dropped
  datatype Piece = Piece(bytes: seq<Byte>, fate: Fate)

  /** The sender goroutine: program variables, the number of callers inside Write that have
      passed its error check, then the history of accepted chunks, gathered bursts, the fate of
      their bytes, and whether a padding draw has failed. */
  datatype Sender = Sender(
    maxBurst: nat, inbox: seq<Chunk>, phase: Phase, mode: Mode, cancelled: bool, writeErr: bool, callers: nat,
    accepted: seq<Chunk>, bursts: seq<Gathered>, pieces: seq<Piece>, skipped: bool)

  /** The writing end of the channel: whether it has failed, and the frames written to it. */
  datatype Link = Link(broken: bool, sent: seq<Frame>)

  /** The keepalive goroutine and the latency samples taken from PONGs. */
  datatype Pinger = Pinger(keepalive: Keepalive, pendingPing: bool, started: nat, samples: nat)

  /** The reading side, then the history of frames received, bytes delivered to the caller and
      PINGs read, and the PONG payloads a failed channel did not take. */
  datatype Receiver = Receiver(
    reading: ReadState, received: seq<Frame>, delivered: seq<Byte>, pingsRead: seq<PingRead>,
    pongsFailed: seq<Chunk>)

  datatype Endpoint = Endpoint(s: Sender, k: Link, p: Pinger, r: Receiver)

  function Fresh(maxBurst: nat): Endpoint {
    Endpoint(Sender(maxBurst, [], Waiting, Idle, false, false, 0, [], [], [], false), Link(false, []),
             Pinger(Sleeping, false, 0, 0), Receiver(ReadState([], [], []), [], [], [], []))
  }

  /** An endpoint with the channel it reads from and the channel it writes to. */
  datatype Local = Local(e: Endpoint, incoming: seq<Byte>, outgoing: seq<Byte>)

  // ----- writing a frame -----

  /** The outcome of a write: it succeeds, or fails after the channel took k bytes. */
  datatype Outcome = Succeeds | FailsAfter(k: nat)

  predicate WriteOk(k: Link, o: Outcome) {
    !k.broken && o.Succeeds?
  }

  /** The whole frame reached the channel, whether or not the write reported success. */
  predicate Through(k: Link, w: WireFrame, o: Outcome) {
    !k.broken && (o.Succeeds? || o.k >= |Encode(w.frame, w.pad)|)
  }

  function Emit(k: Link, w: WireFrame, o: Outcome): Link {
    Link(!WriteOk(k, o), if Through(k, w, o) then k.sent + [w.frame] else k.sent)
  }

  /** The bytes a write adds to the channel. */
  function Emitted(k: Link, w: WireFrame, o: Outcome): seq<Byte> {
    var bytes := Encode(w.frame, w.pad);
    if k.broken then [] else if o.Succeeds? then bytes else bytes[..Min(o.k, |bytes|)]
  }

  // ----- actions -----

  datatype Action =
    | EnterWrite                             // a caller of Write passes the check for an earlier error
    | Write(b: Chunk)                        // Write accepts b into the inbox
    | LeaveWrite                             // Write gives up because of the cancellation
    | Take                                   // the sender starts a burst with the next chunk
    | Gather                                 // the sender adds the next chunk to the burst
    | WindowEnds                             // the burst window timer fires
    | SendData(draw: Fragment.Draw, o: Outcome)
    | DrainEnds
    | ThinkEnds
    | AnswerPing(o: Outcome)                 // the sender echoes a queued PING
    | HandlePong                             // the sender processes a queued PONG
    | SenderStops                            // the sender sees the cancellation
    | KeepaliveFires
    | StampPing
    | SendPing(payload: Chunk, o: Outcome)
    | KeepaliveStops
    | Cancel                                 // Close cancels the context
    | ChannelFails                           // the connection is closed or fails between frames
    | ReadLeftover(n: nat)                   // Read serves the leftover buffer
    | ReadFrame(n: nat)                      // Read takes one frame

  predicate Selecting(p: Phase) {
    p.Waiting? || p.Draining? || p.Thinking?
  }

  predicate Enabled(l: Local, a: Action) {
    var s, c, r := l.e.s, l.e.p, l.e.r;
    match a
    case EnterWrite => !s.writeErr
    case Write(b) => b != [] && s.callers > 0 && |s.inbox| < INBOX_CAPACITY
    case LeaveWrite => s.callers > 0 && s.cancelled
    case Take => Selecting(s.phase) && s.inbox != []
    case Gather => s.phase.Collecting? && s.inbox != []
    case WindowEnds => s.phase.Collecting?
    case SendData(_, _) => s.phase.Flushing?
    case DrainEnds => s.phase.Draining?
    case ThinkEnds => s.phase.Thinking?
    case AnswerPing(_) => (Selecting(s.phase) || s.phase.Collecting?) && r.reading.pings != []
    case HandlePong => (s.phase.Draining? || s.phase.Thinking?) && r.reading.pongs != []
    case SenderStops => s.cancelled && (Selecting(s.phase) || s.phase.Collecting?)
    case KeepaliveFires => c.keepalive.Sleeping? && (s.mode.Idle? || s.mode.Think?)
    case StampPing => c.keepalive.Checked?
    case SendPing(payload, _) => c.keepalive.Stamped? && |payload| <= MAX_PAYLOAD
    case KeepaliveStops => c.keepalive.Sleeping? && s.cancelled
    case Cancel => true
    case ChannelFails => true
    case ReadLeftover(_) => r.reading.leftover != []
    case ReadFrame(_) => r.reading.leftover == [] && Parse(l.incoming).Ok?
  }

  function TotalLen(chunks: seq<Chunk>): nat {
    |Flatten(chunks)|
  }

  function Accept(s: Sender, b: Chunk): Sender
    requires s.callers > 0
  {
    s.(callers := s.callers - 1, inbox := s.inbox + [b], accepted := s.accepted + [b])
  }

  function TakeChunk(s: Sender): Sender
    requires s.inbox != []
  {
    s.(phase := Collecting([s.inbox[0]]), inbox := s.inbox[1..], mode := Burst)
  }

  function BeginFlush(s: Sender): Sender
    requires s.phase.Collecting?
  {
    s.(phase := Flushing(Flatten(s.phase.burst)), bursts := s.bursts + [Gathered(s.phase.burst, true)])
  }

  function GatherChunk(s: Sender): Sender
    requires s.phase.Collecting? && s.inbox != []
  {
    var s' := s.(inbox := s.inbox[1..], phase := Collecting(s.phase.burst + [s.inbox[0]]));
    if TotalLen(s'.phase.burst) >= s.maxBurst then BeginFlush(s') else s'
  }

  /** On an error the rest of a burst is given up and the sender goes back to waiting. */
  function GiveUp(s: Sender, rest: seq<Byte>): Sender {
    s.(phase := Waiting, writeErr := true, pieces := s.pieces + [Piece(rest, Lost)])
  }

  /** After a DATA frame that reached the channel. */
  function AfterSend(s: Sender, ok: bool, payload: seq<Byte>, rest: seq<Byte>): Sender {
    var s' := s.(pieces := s.pieces + [Piece(payload, Sent)]);
    if !ok then GiveUp(s', rest)
    else if rest == [] then s'.(phase := Draining, mode := Drain)
    else s'.(phase := Flushing(rest))
  }

  function SendChunk(l: Local, d: Fragment.Draw, o: Outcome): Local
    requires l.e.s.phase.Flushing?
  {
    var s, k, remaining := l.e.s, l.e.k, l.e.s.phase.remaining;
    var w := Fragment.NextFrame(d, remaining);
    if Fragment.PadFails(d, w) then l.(e := l.e.(s := GiveUp(s, remaining).(skipped := true)))
    else
      var s' :=
        if Through(k, w, o) then AfterSend(s, WriteOk(k, o), w.frame.payload, remaining[|w.frame.payload|..])
        else GiveUp(s, remaining);
      Local(l.e.(s := s', k := Emit(k, w, o)), l.incoming, l.outgoing + Emitted(k, w, o))
  }

  /** A control event cuts the drain phase short. */
  function AfterControl(s: Sender): Sender {
    if s.phase.Draining? then s.(phase := Thinking, mode := Think) else s
  }

  function ControlFrame(kind: Byte, payload: Chunk): WireFrame {
    WireFrame(Frame(kind, 0, payload, 0), [])
  }

  function Dequeue(r: Receiver, failed: bool): Receiver
    requires r.reading.pings != []
  {
    r.(reading := r.reading.(pings := r.reading.pings[1..]),
       pongsFailed := r.pongsFailed + (if failed then [r.reading.pings[0]] else []))
  }

  function Pong(l: Local, o: Outcome): Local
    requires l.e.r.reading.pings != []
  {
    var e, w := l.e, ControlFrame(PONG, l.e.r.reading.pings[0]);
    Local(e.(s := AfterControl(e.s), k := Emit(e.k, w, o), r := Dequeue(e.r, !Through(e.k, w, o))),
          l.incoming, l.outgoing + Emitted(e.k, w, o))
  }

  function SamplePong(e: Endpoint): Endpoint
    requires e.r.reading.pongs != []
  {
    e.(s := AfterControl(e.s),
       p := if e.p.pendingPing then e.p.(pendingPing := false, samples := e.p.samples + 1) else e.p,
       r := e.r.(reading := e.r.reading.(pongs := e.r.reading.pongs[1..])))
  }

  function StopSender(s: Sender): Sender {
    match s.phase
    case Collecting(burst) =>
      s.(phase := Waiting, bursts := s.bursts + [Gathered(burst, false)],
         pieces := s.pieces + [Piece(Flatten(burst), Dropped)])
    case Waiting => s.(phase := Exited)
    case _ => s.(phase := Waiting)
  }

  function Ping(l: Local, payload: Chunk, o: Outcome): Local {
    var e, w := l.e, ControlFrame(PING, payload);
    Local(e.(k := Emit(e.k, w, o), p := e.p.(keepalive := if WriteOk(e.k, o) then Sleeping else Stopped)),
          l.incoming, l.outgoing + Emitted(e.k, w, o))
  }

  function Serve(r: Receiver, n: nat): Receiver {
    var k := Min(n, |r.reading.leftover|);
    r.(reading := r.reading.(leftover := r.reading.leftover[k..]), delivered := r.delivered + r.reading.leftover[..k])
  }

  function Receive(r: Receiver, f: Frame, n: nat): Receiver {
    var (reading, out) := OnFrame(r.reading, f, n);
    var seen := if f.kind == PING then [PingRead(f.payload, |r.reading.pings| < CONTROL_CAPACITY)] else [];
    r.(reading := reading, received := r.received + [f], delivered := r.delivered + out,
       pingsRead := r.pingsRead + seen)
  }

  function Apply(l: Local, a: Action): Local
    requires Enabled(l, a)
  {
    var e := l.e;
    match a
    case EnterWrite => l.(e := e.(s := e.s.(callers := e.s.callers + 1)))
    case Write(b) => l.(e := e.(s := Accept(e.s, b)))
    case LeaveWrite => l.(e := e.(s := e.s.(callers := e.s.callers - 1)))
    case Take => l.(e := e.(s := TakeChunk(e.s)))
    case Gather => l.(e := e.(s := GatherChunk(e.s)))
    case WindowEnds => l.(e := e.(s := BeginFlush(e.s)))
    case SendData(d, o) => SendChunk(l, d, o)
    case DrainEnds => l.(e := e.(s := e.s.(phase := Thinking, mode := Think)))
    case ThinkEnds => l.(e := e.(s := e.s.(phase := Waiting, mode := Idle)))
    case AnswerPing(o) => Pong(l, o)
    case HandlePong => l.(e := SamplePong(e))
    case SenderStops => l.(e := e.(s := StopSender(e.s)))
    case KeepaliveFires => l.(e := e.(p := e.p.(keepalive := Checked)))
    case StampPing => l.(e := e.(p := e.p.(keepalive := Stamped, pendingPing := true, started := e.p.started + 1)))
    case SendPing(payload, o) => Ping(l, payload, o)
    case KeepaliveStops => l.(e := e.(p := e.p.(keepalive := Stopped)))
    case Cancel => l.(e := e.(s := e.s.(cancelled := true)))
    case ChannelFails => l.(e := e.(k := e.k.(broken := true)))
    case ReadLeftover(n) => l.(e := e.(r := Serve(e.r, n)))
    case ReadFrame(n) =>
      var parsed := Parse(l.incoming);
      l.(e := e.(r := Receive(e.r, parsed.frame, n)), incoming := parsed.rest)
  }
}
