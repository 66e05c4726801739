/** The loops of a shaped connection in their own form: Read with its leftover buffer, and the
    joining of a burst (internal/bcl/conn.go). */
module ConnLoops {
  import opened Bytes
  import opened FrameCodec
  import opened FrameStream
  import opened Conn

  /** Non-blocking sends of several payloads to a four-slot channel. */
  function OfferAll(q: seq<Chunk>, ps: seq<Chunk>): (r: seq<Chunk>)
    ensures |q| <= CONTROL_CAPACITY ==> |r| <= CONTROL_CAPACITY
    ensures q <= r
    decreases |ps|
  {
    if ps == [] then q else OfferAll(Offer(q, ps[0]), ps[1..])
  }

  /** Of everything offered, a queue keeps what fits into its four slots, oldest first. */
  lemma {:induction false} OfferKeepsFirst(q: seq<Chunk>, ps: seq<Chunk>)
    requires |q| <= 4
    ensures OfferAll(q, ps) == (q + ps)[..Min(4, |q| + |ps|)]
    decreases |ps|
  {
    if ps == [] {
      assert q + ps == q;
    } else {
      OfferKeepsFirst(Offer(q, ps[0]), ps[1..]);
      assert q + ps == (q + [ps[0]]) + ps[1..];
    }
  }

  /** coalesceBurst: joining chunks is concatenation. */
  method CoalesceBurst(chunks: seq<Chunk>) returns (out: seq<Byte>)
    ensures out == Flatten(chunks)
  {
    if |chunks| == 1 {
      FlattenOne(chunks[0]);
      assert chunks == [chunks[0]];
      return chunks[0];
    }
    out := [];
    for i := 0 to |chunks|
      invariant out == Flatten(chunks[..i])
    {
      assert chunks[..i + 1] == chunks[..i] + [chunks[i]];
      FlattenAppend(chunks[..i], [chunks[i]]);
      FlattenOne(chunks[i]);
      out := out + chunks[i];
    }
    assert chunks[..|chunks|] == chunks;
  }

  /** The outcome of taking frames until one carries data: the new state, the payload found (None
      when the stream ends or a frame is malformed) and the bytes not consumed. */
  datatype Scanned = Scanned(state: ReadState, payload: Option<seq<Byte>>, rest: seq<Byte>)

  function Scan(r: ReadState, s: seq<Byte>): Scanned
    decreases |s|
  {
    match Parse(s)
    case Err(_, rest) => Scanned(r, None, rest)
    case Ok(f, rest) =>
      if f.kind == DATA && f.payload != [] then Scanned(r, Some(f.payload), rest)
      else Scan(OnFrame(r, f, 0).0, rest)
  }

  lemma ScanStep(r: ReadState, s: seq<Byte>)
    requires Parse(s).Ok?
    ensures var f, rest := Parse(s).frame, Parse(s).rest;
            && |rest| < |s|
            && Decode(s).frames == [f] + Decode(rest).frames
            && (if f.kind == DATA && f.payload != [] then Scan(r, s) == Scanned(r, Some(f.payload), rest)
                else Scan(r, s) == Scan(OnFrame(r, f, 0).0, rest))
  {
  }

  /** Of the frames on a channel, a scan consumed fs: the PINGs and PONGs among them were offered
      to their queues in order, and the only data among them is the payload found. */
  ghost predicate Accounted(r: ReadState, frames: seq<Frame>, sc: Scanned, fs: seq<Frame>) {
    && sc.state.leftover == r.leftover
    && sc.state.pings == OfferAll(r.pings, Payloads(fs, PING))
    && sc.state.pongs == OfferAll(r.pongs, Payloads(fs, PONG))
    && DataOf(fs) == (if sc.payload.Some? then sc.payload.value else [])
    && (sc.payload.Some? ==> sc.payload.value != [])
    && frames == (if sc.payload.Some? then fs + Decode(sc.rest).frames else fs)
  }

  /** Skipping control frames loses no data, and queues the PINGs and PONGs skipped, in order, as
      far as there is room; when no payload is found there was none on the channel. */
  lemma {:induction false} ScanConserves(r: ReadState, s: seq<Byte>) returns (fs: seq<Frame>)
    ensures Accounted(r, Decode(s).frames, Scan(r, s), fs)
    decreases |s|
  {
    if Parse(s).Err? {
      fs := [];
    } else {
      var f := Parse(s).frame;
      ScanStep(r, s);
      if f.kind == DATA && f.payload != [] {
        DataOne(f);
        OneKind(f);
        fs := [f];
        hide Parse, Decode, Scan, DataOf, Payloads;
      } else {
        var fs' := ScanConserves(OnFrame(r, f, 0).0, Parse(s).rest);
        AccountedNext(r, f, Decode(Parse(s).rest).frames, Scan(r, s), fs');
        fs := [f] + fs';
      }
    }
  }

  lemma AccountedNext(r: ReadState, f: Frame, frames: seq<Frame>, sc: Scanned, fs: seq<Frame>)
    requires !(f.kind == DATA && f.payload != [])
    requires Accounted(OnFrame(r, f, 0).0, frames, sc, fs)
    ensures Accounted(r, [f] + frames, sc, [f] + fs)
  {
    DataOne(f);
    OneKind(f);
    DataAppend([f], fs);
    PayloadsAppend([f], fs, PING);
    PayloadsAppend([f], fs, PONG);
    OfferOne(r.pings, f, PING, Payloads(fs, PING));
    OfferOne(r.pongs, f, PONG, Payloads(fs, PONG));
    hide Decode, DataOf, Payloads, OfferAll;
    assert [f] + (fs + Decode(sc.rest).frames) == ([f] + fs) + Decode(sc.rest).frames;
  }

  lemma OfferOne(q: seq<Chunk>, f: Frame, kind: Byte, more: seq<Chunk>)
    ensures var first := if f.kind == kind then [f.payload] else [];
            OfferAll(q, first + more) == OfferAll(if f.kind == kind then Offer(q, f.payload) else q, more)
  {
    if f.kind == kind {
      assert ([f.payload] + more)[1..] == more;
    } else {
      assert [] + more == more;
    }
  }

  lemma OneKind(f: Frame)
    ensures Payloads([f], PING) == (if f.kind == PING then [f.payload] else [])
    ensures Payloads([f], PONG) == (if f.kind == PONG then [f.payload] else [])
  {
  }

  // ----- one call of Read -----

  /** The state after one call of Read, the bytes returned (None on an error) and the bytes of the
      channel not consumed. */
  datatype ReadOutcome = ReadOutcome(state: ReadState, out: Option<seq<Byte>>, rest: seq<Byte>)

  function ReadOnce(r: ReadState, s: seq<Byte>, n: nat): ReadOutcome {
    if r.leftover != [] then
      var k := Min(n, |r.leftover|);
      ReadOutcome(r.(leftover := r.leftover[k..]), Some(r.leftover[..k]), s)
    else
      var sc := Scan(r, s);
      if sc.payload.None? then ReadOutcome(sc.state, None, sc.rest)
      else
        var k := Min(n, |sc.payload.value|);
        ReadOutcome(sc.state.(leftover := sc.payload.value[k..]), Some(sc.payload.value[..k]), sc.rest)
  }

  /** Leftovers come first; otherwise the bytes returned and those kept are the next payload. Nothing is
      returned exactly when there is no payload left. */
  lemma ReadOnceSplits(r: ReadState, s: seq<Byte>, n: nat)
    ensures var o := ReadOnce(r, s, n);
            if r.leftover != [] then
              && o.rest == s && o.out.Some? && |o.out.value| == Min(n, |r.leftover|)
              && o.out.value + o.state.leftover == r.leftover && o.state == r.(leftover := o.state.leftover)
            else
              var sc := Scan(r, s);
              && o.rest == sc.rest && o.state.pings == sc.state.pings && o.state.pongs == sc.state.pongs
              && o.out.Some? == sc.payload.Some?
              && (o.out.Some? ==>
                    && |o.out.value| == Min(n, |sc.payload.value|)
                    && o.out.value + o.state.leftover == sc.payload.value)
  {
    hide Scan;
  }

  /** The steps of one endpoint alone. */
  predicate LocalPossible(l: Local, run: seq<Action>)
    decreases |run|
  {
    run == [] || (Enabled(l, run[0]) && LocalPossible(Apply(l, run[0]), run[1..]))
  }

  function LocalExec(l: Local, run: seq<Action>): Local
    requires LocalPossible(l, run)
    decreases |run|
  {
    if run == [] then l else LocalExec(Apply(l, run[0]), run[1..])
  }

  /** The steps a call of Read with a buffer of n bytes is made of. */
  predicate ReadSteps(run: seq<Action>, n: nat) {
    forall i :: 0 <= i < |run| ==> run[i] == ReadFrame(n) || run[i] == ReadLeftover(n)
  }

  /** l' is l after a call of Read; on an error the bytes that caused it are still there. */
  ghost predicate ReadDone(l: Local, l': Local, n: nat) {
    var o := ReadOnce(l.e.r.reading, l.incoming, n);
    && l'.e.s == l.e.s && l'.e.k == l.e.k && l'.e.p == l.e.p && l'.outgoing == l.outgoing
    && l'.e.r.reading == o.state
    && l'.e.r.delivered == l.e.r.delivered + (if o.out.Some? then o.out.value else [])
    && (if o.out.Some? then l'.incoming == o.rest else Parse(l'.incoming).Err? && Parse(l'.incoming).rest == o.rest)
  }

  lemma FrameStep(l: Local, n: nat)
    requires l.e.r.reading.leftover == [] && Parse(l.incoming).Ok?
    ensures Enabled(l, ReadFrame(n))
    ensures var p := Parse(l.incoming);
            Apply(l, ReadFrame(n)) == l.(e := l.e.(r := Receive(l.e.r, p.frame, n)), incoming := p.rest)
  {
    hide Parse;
  }

  /** A frame that carries no data is skipped alike by Scan and by the step relation. */
  lemma SkipFrame(r: Receiver, f: Frame, n: nat)
    requires r.reading.leftover == [] && !(f.kind == DATA && f.payload != [])
    ensures Receive(r, f, n).reading == OnFrame(r.reading, f, 0).0 && Receive(r, f, n).reading.leftover == []
    ensures Receive(r, f, n).delivered == r.delivered
  {
  }

  lemma DataStep(l: Local, n: nat)
    requires l.e.r.reading.leftover == [] && Parse(l.incoming).Ok?
    requires Parse(l.incoming).frame.kind == DATA && Parse(l.incoming).frame.payload != []
    ensures LocalPossible(l, [ReadFrame(n)]) && ReadDone(l, LocalExec(l, [ReadFrame(n)]), n)
  {
    FrameStep(l, n);
    ScanStep(l.e.r.reading, l.incoming);
    hide Parse, Enabled, Apply, Scan;
    var next := Apply(l, ReadFrame(n));
    assert [ReadFrame(n)][1..] == [] && LocalPossible(next, []) && LocalExec(next, []) == next;
  }

  /** A call of Read that skips its first frame does what a call after that frame does. */
  lemma SkipOnce(r: Receiver, s: seq<Byte>, n: nat)
    requires r.reading.leftover == [] && Parse(s).Ok?
    requires !(Parse(s).frame.kind == DATA && Parse(s).frame.payload != [])
    ensures ReadOnce(r.reading, s, n) == ReadOnce(Receive(r, Parse(s).frame, n).reading, Parse(s).rest, n)
    ensures |Parse(s).rest| < |s|
  {
    ScanStep(r.reading, s);
    SkipFrame(r, Parse(s).frame, n);
    hide Parse, Scan, OnFrame, Receive;
  }

  lemma SkipStep(l: Local, n: nat, l': Local)
    requires l.e.r.reading.leftover == [] && Parse(l.incoming).Ok?
    requires !(Parse(l.incoming).frame.kind == DATA && Parse(l.incoming).frame.payload != [])
    ensures Enabled(l, ReadFrame(n)) && |Apply(l, ReadFrame(n)).incoming| < |l.incoming|
    ensures ReadDone(Apply(l, ReadFrame(n)), l', n) ==> ReadDone(l, l', n)
  {
    FrameStep(l, n);
    SkipOnce(l.e.r, l.incoming, n);
    SkipFrame(l.e.r, Parse(l.incoming).frame, n);
    hide Parse, Enabled, Apply, ReadOnce, OnFrame, Receive;
  }

  /** Refinement: one call of Read is a run of ReadFrame and ReadLeftover steps. */
  lemma {:induction false} ReadIsRun(l: Local, n: nat) returns (run: seq<Action>)
    ensures ReadSteps(run, n) && LocalPossible(l, run) && ReadDone(l, LocalExec(l, run), n)
    decreases |l.incoming|
  {
    if l.e.r.reading.leftover != [] {
      run := [ReadLeftover(n)];
      LeftoverRun(l, n);
      hide ReadDone, LocalExec, LocalPossible;
    } else if Parse(l.incoming).Err? {
      run := [];
      ErrorRun(l, n);
    } else {
      var f := Parse(l.incoming).frame;
      if f.kind == DATA && f.payload != [] {
        run := [ReadFrame(n)];
        DataStep(l, n);
        hide ReadDone, LocalExec, LocalPossible;
      } else {
        SkipStep(l, n, l);
        hide Parse, Enabled, Apply, ReadDone;
        var more := ReadIsRun(Apply(l, ReadFrame(n)), n);
        SkipStep(l, n, LocalExec(Apply(l, ReadFrame(n)), more));
        run := [ReadFrame(n)] + more;
        assert run[1..] == more;
      }
    }
  }

  lemma ErrorRun(l: Local, n: nat)
    requires l.e.r.reading.leftover == [] && Parse(l.incoming).Err?
    ensures LocalPossible(l, []) && ReadDone(l, LocalExec(l, []), n)
  {
    hide Parse;
    assert l.e.r.delivered + [] == l.e.r.delivered;
  }

  lemma LeftoverRun(l: Local, n: nat)
    requires l.e.r.reading.leftover != []
    ensures LocalPossible(l, [ReadLeftover(n)]) && ReadDone(l, LocalExec(l, [ReadLeftover(n)]), n)
  {
    hide Parse, Scan;
    var next := Apply(l, ReadLeftover(n));
    assert [ReadLeftover(n)][1..] == [] && LocalPossible(next, []) && LocalExec(next, []) == next;
  }

  /** The reading side of a connection. */
  class Incoming {
    const reader: Reader
    var leftover: seq<Byte>
    var pings: seq<Chunk>
    var pongs: seq<Chunk>

    ghost function Value(): ReadState
      reads this
    {
      ReadState(leftover, pings, pongs)
    }

    constructor (reader: Reader)
      ensures this.reader == reader && Value() == ReadState([], [], [])
    {
      this.reader := reader;
      leftover, pings, pongs := [], [], [];
    }

    /** Read into a buffer of n bytes: leftovers first, otherwise the next payload the scan finds,
        what does not fit being kept. None is an error or the end of the stream. */
    method Read(n: nat) returns (r: Option<seq<Byte>>)
      modifies this, reader.src
      ensures ReadOutcome(Value(), r, reader.src.data) == ReadOnce(old(Value()), old(reader.src.data), n)
    {
      if leftover != [] {
        var k := Min(n, |leftover|);
        r := Some(leftover[..k]);
        leftover := leftover[k..];
        return;
      }
      ghost var sc := Scan(Value(), reader.src.data);
      while true
        invariant leftover == []
        invariant sc == Scan(Value(), reader.src.data)
        decreases |reader.src.data|
      {
        ghost var state, before := Value(), reader.src.data;
        var p := reader.ReadFrame();
        if p.Err? {
          return None;
        }
        ScanStep(state, before);
        hide Parse, Scan;
        var f := p.frame;
        if f.kind == DATA {
          if f.payload != [] {
            var k := Min(n, |f.payload|);
            leftover := f.payload[k..];
            return Some(f.payload[..k]);
          }
        } else if f.kind == PING {
          pings := Offer(pings, f.payload);
        } else if f.kind == PONG {
          pongs := Offer(pongs, f.payload);
        }
        assert Value() == OnFrame(state, f, 0).0;
      }
    }
  }
}
