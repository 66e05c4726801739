/** Cutting a burst into DATA frames (fragmentAndSend in internal/bcl/conn.go). The random
    draws behind each frame are an arbitrary infinite sequence. */
module Fragment {
  import opened Bytes
  import opened FrameCodec
  import opened FrameStream
  import Personality
  import Padding
  import Pacer
  import SizeModel

  /** The draws behind one frame: the apparent size it is cut to, whether padding is skipped,
      the independently sampled padding target, the padding bytes, and whether the random source
      delivers them. */
  datatype Draw = Draw(apparent: int, zeroPad: bool, target: int, noise: nat -> Byte, padOk: bool)

  type Draws = nat -> Draw

  /** How many of n remaining bytes go into a frame of the given apparent size. */
  function CutLen(apparent: int, n: nat): (len: nat)
    ensures len <= n && len <= MAX_PAYLOAD
    ensures n > 0 ==> len > 0
  {
    var room := apparent - HEADER_SIZE;
    var most := if room <= 0 then 1 else if room > MAX_PAYLOAD then MAX_PAYLOAD else room;
    if n > most then most else n
  }

  function PadLen(d: Draw, len: nat): (pad: Uint16)
    ensures pad <= MAX_PADDING
  {
    if d.zeroPad then 0 else Padding.PadFor(d.target, len)
  }

  /** The next frame cut from the remaining bytes. */
  function NextFrame(d: Draw, remaining: seq<Byte>): (w: WireFrame)
    ensures LegalWire(w) && w.frame.kind == DATA
    ensures w.frame.payload == remaining[..CutLen(d.apparent, |remaining|)] && w.frame.streamId == 0
    ensures forall i :: 0 <= i < |w.pad| ==> w.pad[i] == d.noise(i)
  {
    var len := CutLen(d.apparent, |remaining|);
    var pad := PadLen(d, len);
    WireFrame(Frame(DATA, 0, remaining[..len], pad), seq(pad, i requires 0 <= i < pad => d.noise(i)))
  }

  /** The frame is not written because its padding cannot be drawn. */
  predicate PadFails(d: Draw, w: WireFrame) {
    w.frame.padLen > 0 && !d.padOk
  }

  /** All frames cut from data, using the draws from the k-th on. */
  function Fragments(data: seq<Byte>, draws: Draws, k: nat): (ws: seq<WireFrame>)
    ensures AllLegal(ws)
    decreases |data|
  {
    if data == [] then []
    else
      var w := NextFrame(draws(k), data);
      [w] + Fragments(data[|w.frame.payload|..], draws, k + 1)
  }

  /** Nothing is lost, duplicated or reordered, whatever the draws: the DATA frames carry the
      burst. */
  lemma {:induction false} FragmentsCarry(data: seq<Byte>, draws: Draws, k: nat)
    ensures DataOf(FramesOf(Fragments(data, draws, k))) == data
    decreases |data|
  {
    if data != [] {
      var w := NextFrame(draws(k), data);
      var rest := data[|w.frame.payload|..];
      var tail := FramesOf(Fragments(rest, draws, k + 1));
      FragmentsCarry(rest, draws, k + 1);
      assert FramesOf(Fragments(data, draws, k)) == [w.frame] + tail;
      DataAppend([w.frame], tail);
      DataOne(w.frame);
    }
  }

  /** A peer that decodes the bytes of a fragmented burst recovers exactly the burst. */
  lemma FragmentsDecode(data: seq<Byte>, draws: Draws)
    ensures var d := Decode(EncodeAll(Fragments(data, draws, 0)));
            d.tail == [] && DataOf(d.frames) == data
  {
    var ws := Fragments(data, draws, 0);
    FragmentsCarry(data, draws, 0);
    DecodeEncoded(ws, []);
    DecodeEmpty();
    assert EncodeAll(ws) + [] == EncodeAll(ws) && FramesOf(ws) + [] == FramesOf(ws);
  }

  // ----- how many frames -----

  /** Every apparent size drawn lies between m and M. */
  ghost predicate SizesWithin(draws: Draws, m: int, M: int) {
    forall k: nat :: m <= draws(k).apparent <= M
  }

  function Ceil(n: nat, d: nat): nat
    requires d > 0
  {
    (n + d - 1) / d
  }

  function Times(c: int, d: int): int { c * d }

  lemma TimesNext(c: int, d: int)
    ensures Times(c + 1, d) == Times(c, d) + d && Times(0, d) == 0
  {
  }

  lemma TimesOrder(a: int, b: int, d: nat)
    requires a <= b
    ensures Times(a, d) <= Times(b, d)
  {
    assert (b - a) * d >= 0;
  }

  lemma {:induction false} CountProducts(data: seq<Byte>, draws: Draws, k: nat, lo: nat, hi: nat)
    requires 0 < lo <= hi && lo <= MAX_PAYLOAD && SizesWithin(draws, lo + HEADER_SIZE, hi + HEADER_SIZE)
    ensures Times(|Fragments(data, draws, k)|, hi) >= |data|
    ensures data != [] ==> Times(|Fragments(data, draws, k)| - 1, lo) < |data|
    decreases |data|
  {
    hide Times;
    if data == [] {
      TimesNext(0, hi);
    } else {
      var len := CutLen(draws(k).apparent, |data|);
      var rest := data[len..];
      CountProducts(rest, draws, k + 1, lo, hi);
      var c := |Fragments(rest, draws, k + 1)|;
      assert |Fragments(data, draws, k)| == c + 1;
      TimesNext(c, hi);
      TimesNext(c - 1, lo);
      if rest == [] { TimesNext(0, lo); }
    }
  }

  lemma CeilLeast(n: nat, d: nat, c: int)
    requires d > 0
    ensures Times(c, d) >= n <==> c >= Ceil(n, d)
  {
    var q: int := Ceil(n, d);
    CeilBounds(n, d);
    hide Times, Ceil;
    TimesNext(q - 1, d);
    if c >= q {
      TimesOrder(q, c, d);
    } else {
      TimesOrder(c, q - 1, d);
    }
  }

  lemma CeilBounds(n: nat, d: nat)
    requires d > 0
    ensures n <= Times(Ceil(n, d), d) < n + d
  {
    var x := n + d - 1;
    assert x == (x / d) * d + x % d;
  }

  /** With apparent sizes between m >= 12 and M, a burst of n bytes takes at least
      ceil(n / (M - 11)) and at most ceil(n / (m - 11)) frames, a frame holding at most 65535
      bytes whatever its size. */
  lemma FrameCount(data: seq<Byte>, draws: Draws, m: int, M: int)
    requires HEADER_SIZE < m <= M && SizesWithin(draws, m, M)
    ensures Ceil(|data|, M - HEADER_SIZE) <= |Fragments(data, draws, 0)|
    ensures |Fragments(data, draws, 0)| <= Ceil(|data|, Min(m - HEADER_SIZE, MAX_PAYLOAD))
  {
    var c, lo := |Fragments(data, draws, 0)|, Min(m - HEADER_SIZE, MAX_PAYLOAD);
    CountProducts(data, draws, 0, lo, M - HEADER_SIZE);
    CeilLeast(|data|, M - HEADER_SIZE, c);
    if data != [] {
      CeilLeast(|data|, lo, c - 1);
    }
  }

  // ----- how large they are -----

  /** A frame is no larger than the larger of its two sampled targets, unless the apparent size
      leaves no room for a single payload byte. */
  lemma FrameSize(d: Draw, remaining: seq<Byte>)
    requires remaining != []
    ensures var w := NextFrame(d, remaining);
            var size := |Encode(w.frame, w.pad)|;
            && (d.apparent > HEADER_SIZE ==> size <= d.apparent || (!d.zeroPad && size <= d.target))
            && (d.apparent <= HEADER_SIZE ==> size == 12 || (!d.zeroPad && size <= d.target))
  {
  }

  /** A frame whose padding is not skipped comes to exactly its padding target, unless the payload
      already exceeds it or the padding limit is reached first. */
  lemma PaddedSize(d: Draw, remaining: seq<Byte>)
    requires !d.zeroPad
    ensures var w := NextFrame(d, remaining);
            var bare, size := HEADER_SIZE + |w.frame.payload|, |Encode(w.frame, w.pad)|;
            if d.target < bare then size == bare
            else if d.target <= bare + MAX_PADDING then size == d.target
            else size == bare + MAX_PADDING < d.target
  {
    hide Encode;
  }

  /** Draws a selector can make from a personality's table. */
  ghost predicate DrawnFrom(draws: Draws, p: Personality.Personality) {
    forall k: nat :: FromTable(draws(k).apparent, p) && FromTable(draws(k).target, p)
  }

  ghost predicate FromTable(size: int, p: Personality.Personality) {
    exists i :: 0 <= i < |p.buckets| && p.buckets[i].size == size
  }

  /** Whatever the selector returns is a size from its personality's table. */
  lemma SelectedFromTable(m: SizeModel.Model, p: Personality.Personality, floor: real, us: seq<real>)
    requires Personality.Known(p) && Padding.ModelOf(m, p)
    ensures m.buckets != []
    ensures Padding.Biased(m, floor, us).Some? ==> FromTable(Padding.Biased(m, floor, us).value, p)
  {
    Personality.TablesProper(p);
    if Padding.Biased(m, floor, us).Some? {
      var i := Padding.BiasedFromTable(m, floor, us);
    }
  }

  /** The smallest and the largest size of a personality's table. */
  function Smallest(p: Personality.Personality): int
    requires p.buckets != []
  {
    p.buckets[0].size
  }

  function Largest(p: Personality.Personality): int
    requires p.buckets != []
  {
    p.buckets[|p.buckets| - 1].size
  }

  lemma TableRange(p: Personality.Personality, size: int)
    requires Personality.Known(p) && FromTable(size, p)
    ensures p.buckets != [] && 64 <= Smallest(p) <= size <= Largest(p) <= Personality.MAX_TLS_RECORD
  {
    Personality.TablesProper(p);
    hide Personality.Known;
  }

  /** For all five personalities the number of frames of a burst is bounded by the smallest and the
      largest size of its own table. */
  lemma PersonalityFrameCount(data: seq<Byte>, draws: Draws, p: Personality.Personality)
    requires Personality.Known(p) && DrawnFrom(draws, p)
    ensures p.buckets != [] && HEADER_SIZE < Smallest(p) <= Largest(p)
    ensures Ceil(|data|, Largest(p) - HEADER_SIZE) <= |Fragments(data, draws, 0)|
    ensures |Fragments(data, draws, 0)| <= Ceil(|data|, Smallest(p) - HEADER_SIZE)
  {
    assert p.buckets != [] by { Personality.TablesProper(p); }
    forall k: nat ensures 64 <= Smallest(p) <= draws(k).apparent <= Largest(p) <= Personality.MAX_TLS_RECORD {
      assert FromTable(draws(k).apparent, p);
      TableRange(p, draws(k).apparent);
    }
    assert draws(0).apparent <= Largest(p);
    hide Personality.Known, FromTable;
    FrameCount(data, draws, Smallest(p), Largest(p));
  }

  /** For all five personalities every DATA frame is at most as large as the largest size of its
      table, and so fits one TLS record. */
  lemma {:induction false} FramesFitRecords(data: seq<Byte>, draws: Draws, k: nat, p: Personality.Personality, i: nat)
    requires Personality.Known(p) && DrawnFrom(draws, p)
    requires i < |Fragments(data, draws, k)|
    ensures var w := Fragments(data, draws, k)[i];
            p.buckets != [] && |Encode(w.frame, w.pad)| <= Largest(p) <= Personality.MAX_TLS_RECORD
    decreases |data|
  {
    hide Personality.Known, Encode;
    var w := NextFrame(draws(k), data);
    if i > 0 {
      FramesFitRecords(data[|w.frame.payload|..], draws, k + 1, p, i - 1);
    } else {
      assert FromTable(draws(k).apparent, p) && FromTable(draws(k).target, p);
      FrameFits(draws(k), data, p);
    }
  }

  lemma FrameFits(d: Draw, data: seq<Byte>, p: Personality.Personality)
    requires Personality.Known(p) && FromTable(d.apparent, p) && FromTable(d.target, p) && data != []
    ensures var w := NextFrame(d, data);
            p.buckets != [] && |Encode(w.frame, w.pad)| <= Largest(p) <= Personality.MAX_TLS_RECORD
  {
    TableRange(p, d.apparent);
    TableRange(p, d.target);
    FrameSize(d, data);
    hide Personality.Known, Encode, NextFrame, FromTable;
  }

  // ----- the sending loop -----

  function FirstLatencies(latency: nat -> real, n: nat): seq<real> {
    seq(n, i requires 0 <= i < n => latency(i))
  }

  lemma OneMoreLatency(s: Pacer.State, latency: nat -> real, n: nat)
    ensures Pacer.Run(s, FirstLatencies(latency, n + 1)) ==
            Pacer.Observe(Pacer.Run(s, FirstLatencies(latency, n)), latency(n))
  {
    var ls := FirstLatencies(latency, n);
    assert FirstLatencies(latency, n + 1) == ls + [latency(n)];
    Pacer.RunSplit(s, ls, [latency(n)]);
    assert Pacer.Run(Pacer.Run(s, ls), [latency(n)]) == Pacer.Observe(Pacer.Run(s, ls), latency(n));
  }

  /** How many frames are attempted on a channel that takes capacity more bytes: all, or up to and
      including the first that does not fit. */
  function Attempts(ws: seq<WireFrame>, capacity: nat): (n: nat)
    ensures n <= |ws|
  {
    if ws == [] then 0
    else
      var size := |Encode(ws[0].frame, ws[0].pad)|;
      if size > capacity then 1 else 1 + Attempts(ws[1..], capacity - size)
  }

  /** The bytes such a channel takes. */
  function Taken(ws: seq<WireFrame>, capacity: nat): seq<Byte> {
    if ws == [] then []
    else
      var bytes := Encode(ws[0].frame, ws[0].pad);
      if |bytes| > capacity then bytes[..capacity] else bytes + Taken(ws[1..], capacity - |bytes|)
  }

  /** The channel takes as much of the encoding as it has room for; all frames fit, or exactly the
      last one attempted is the first that does not. */
  lemma {:induction false} AttemptsExact(ws: seq<WireFrame>, capacity: nat)
    ensures var n, e := Attempts(ws, capacity), EncodeAll(ws);
            && Taken(ws, capacity) == e[..Min(capacity, |e|)]
            && if |e| <= capacity then n == |ws|
               else n > 0 && |EncodeAll(ws[..n - 1])| <= capacity < |EncodeAll(ws[..n])|
  {
    hide Encode;
    if ws != [] {
      var size := |Encode(ws[0].frame, ws[0].pad)|;
      var n := Attempts(ws, capacity);
      assert ws[..1] == [ws[0]] && ws[..1][1..] == [];
      if size <= capacity {
        AttemptsExact(ws[1..], capacity - size);
        assert ws[..n][1..] == ws[1..][..n - 1];
        if n > 1 {
          assert ws[..n - 1][1..] == ws[1..][..n - 2];
        }
      }
    }
  }

  /** How many frames come before the first whose padding cannot be drawn. */
  function FirstPadFailure(ws: seq<WireFrame>, draws: Draws, k: nat): (j: nat)
    ensures j <= |ws|
  {
    if ws == [] || PadFails(draws(k), ws[0]) then 0 else 1 + FirstPadFailure(ws[1..], draws, k + 1)
  }

  /** A failed padding draw stops the loop like a channel that takes just the frames before it. */
  function Room(ws: seq<WireFrame>, draws: Draws, k: nat, capacity: nat): (room: nat)
    ensures room <= capacity
  {
    var j := FirstPadFailure(ws, draws, k);
    if j == |ws| then capacity else Min(capacity, |EncodeAll(ws[..j])|)
  }

  lemma RoomNext(ws: seq<WireFrame>, draws: Draws, k: nat, capacity: nat)
    requires ws != []
    ensures PadFails(draws(k), ws[0]) ==> Room(ws, draws, k, capacity) == 0
    ensures var size := |Encode(ws[0].frame, ws[0].pad)|;
            !PadFails(draws(k), ws[0]) ==>
              && (size > capacity ==> Room(ws, draws, k, capacity) == capacity)
              && (size <= capacity ==>
                    Room(ws, draws, k, capacity) == size + Room(ws[1..], draws, k + 1, capacity - size))
  {
    hide Encode, PadFails;
    var j := FirstPadFailure(ws, draws, k);
    if j > 0 {
      assert ws[..j][0] == ws[0] && ws[..j][1..] == ws[1..][..j - 1];
    }
  }

  /** Where the sending loop is: the bytes the channel has taken, the frames attempted and the
      pacer. */
  datatype Progress = Progress(sent: seq<Byte>, frames: nat, pacer: Pacer.State)

  /** The end of the sending loop from some point on, and whether all frames were written. */
  function Sending(p: Progress, data: seq<Byte>, draws: Draws, latency: nat -> real, budget: nat): (Progress, bool)
    decreases |data|
  {
    if data == [] then (p, true)
    else
      var w := NextFrame(draws(p.frames), data);
      var bytes, paced := Encode(w.frame, w.pad), Pacer.Observe(p.pacer, latency(p.frames));
      if PadFails(draws(p.frames), w) then (p.(frames := p.frames + 1, pacer := paced), false)
      else if |bytes| > budget then (Progress(p.sent + bytes[..budget], p.frames + 1, paced), false)
      else
        Sending(Progress(p.sent + bytes, p.frames + 1, paced), data[|w.frame.payload|..], draws, latency,
                budget - |bytes|)
  }

  lemma FragmentsNext(data: seq<Byte>, draws: Draws, k: nat)
    requires data != []
    ensures var w := NextFrame(draws(k), data);
            var ws := Fragments(data, draws, k);
            ws != [] && ws[0] == w && ws[1..] == Fragments(data[|w.frame.payload|..], draws, k + 1)
  {
  }

  /** What becomes of the first frame on a channel with this much room. */
  lemma LoopNext(ws: seq<WireFrame>, room: nat)
    requires ws != []
    ensures var bytes := Encode(ws[0].frame, ws[0].pad);
            && |bytes| > 0 && |EncodeAll(ws)| == |bytes| + |EncodeAll(ws[1..])|
            && (|bytes| > room ==> Attempts(ws, room) == 1 && Taken(ws, room) == bytes[..room])
            && (|bytes| <= room ==>
                  && Attempts(ws, room) == 1 + Attempts(ws[1..], room - |bytes|)
                  && Taken(ws, room) == bytes + Taken(ws[1..], room - |bytes|))
  {
    hide Encode;
  }

  lemma SendingNext(p: Progress, data: seq<Byte>, draws: Draws, latency: nat -> real, budget: nat)
    requires data != []
    ensures var w := NextFrame(draws(p.frames), data);
            var bytes, paced := Encode(w.frame, w.pad), Pacer.Observe(p.pacer, latency(p.frames));
            && LegalWire(w) && 0 < |w.frame.payload| <= |data|
            && |bytes| == HEADER_SIZE + |w.frame.payload| + |w.pad|
            && Sending(p, data, draws, latency, budget) ==
               (if PadFails(draws(p.frames), w) then (p.(frames := p.frames + 1, pacer := paced), false)
                else if |bytes| > budget then (Progress(p.sent + bytes[..budget], p.frames + 1, paced), false)
                else Sending(Progress(p.sent + bytes, p.frames + 1, paced), data[|w.frame.payload|..], draws, latency,
                             budget - |bytes|))
  {
    hide Encode, Pacer.Observe;
  }

  /** The end of the loop over the frames ws in closed form. */
  predicate ClosedForm(p: Progress, end: (Progress, bool), ws: seq<WireFrame>, room: nat) {
    && end.1 == (|EncodeAll(ws)| <= room)
    && end.0.sent == p.sent + Taken(ws, room)
    && end.0.frames == p.frames + Attempts(ws, room)
  }

  /** The loop stops at its first frame. */
  lemma ClosedStop(p: Progress, q: Progress, ws: seq<WireFrame>, room: nat)
    requires ws != [] && room < |Encode(ws[0].frame, ws[0].pad)| && q.frames == p.frames + 1
    requires q.sent == p.sent + Encode(ws[0].frame, ws[0].pad)[..room]
    ensures ClosedForm(p, (q, false), ws, room)
  {
    LoopNext(ws, room);
    hide Encode, EncodeAll, Attempts, Taken;
  }

  /** The loop writes its first frame and goes on. */
  lemma ClosedGo(p: Progress, p': Progress, end: (Progress, bool), ws: seq<WireFrame>, room: nat, room': nat)
    requires ws != [] && room == |Encode(ws[0].frame, ws[0].pad)| + room' && p'.frames == p.frames + 1
    requires p'.sent == p.sent + Encode(ws[0].frame, ws[0].pad) && ClosedForm(p', end, ws[1..], room')
    ensures ClosedForm(p, end, ws, room)
  {
    LoopNext(ws, room);
    hide Encode, EncodeAll, Attempts, Taken;
    Regroup(p.sent, Encode(ws[0].frame, ws[0].pad), Taken(ws[1..], room'));
  }

  /** The closed form at a frame that ends the loop. */
  lemma SendingStops(p: Progress, data: seq<Byte>, draws: Draws, latency: nat -> real, budget: nat)
    requires data != []
    requires var w := NextFrame(draws(p.frames), data);
             PadFails(draws(p.frames), w) || |Encode(w.frame, w.pad)| > budget
    ensures var ws := Fragments(data, draws, p.frames);
            ClosedForm(p, Sending(p, data, draws, latency, budget), ws, Room(ws, draws, p.frames, budget))
  {
    var ws, k := Fragments(data, draws, p.frames), p.frames;
    FragmentsNext(data, draws, k);
    RoomNext(ws, draws, k, budget);
    SendingNext(p, data, draws, latency, budget);
    hide *;
    var q, bytes := Sending(p, data, draws, latency, budget).0, Encode(ws[0].frame, ws[0].pad);
    assert bytes[..0] == [] && p.sent + [] == p.sent;
    ClosedStop(p, q, ws, Room(ws, draws, k, budget));
  }

  /** The closed form at a frame that is written. */
  lemma SendingGoes(p: Progress, data: seq<Byte>, draws: Draws, latency: nat -> real, budget: nat, p': Progress,
                    rest: seq<Byte>, left: nat)
    requires data != []
    requires var w := NextFrame(draws(p.frames), data);
             && !PadFails(draws(p.frames), w) && budget == |Encode(w.frame, w.pad)| + left
             && p' == Progress(p.sent + Encode(w.frame, w.pad), p.frames + 1, Pacer.Observe(p.pacer, latency(p.frames)))
             && rest == data[|w.frame.payload|..]
    requires var ws := Fragments(rest, draws, p'.frames);
             ClosedForm(p', Sending(p', rest, draws, latency, left), ws, Room(ws, draws, p'.frames, left))
    ensures var ws := Fragments(data, draws, p.frames);
            ClosedForm(p, Sending(p, data, draws, latency, budget), ws, Room(ws, draws, p.frames, budget))
  {
    var ws, k := Fragments(data, draws, p.frames), p.frames;
    FragmentsNext(data, draws, k);
    RoomNext(ws, draws, k, budget);
    SendingNext(p, data, draws, latency, budget);
    hide *;
    var end := Sending(p, data, draws, latency, budget);
    assert end == Sending(p', rest, draws, latency, left);
    assert ws[1..] == Fragments(rest, draws, k + 1);
    ClosedGo(p, p', end, ws, Room(ws, draws, k, budget), Room(ws[1..], draws, k + 1, left));
  }

  /** The loop in closed form. */
  lemma {:induction false} SendingIs(p: Progress, data: seq<Byte>, draws: Draws, latency: nat -> real, budget: nat)
    ensures var ws := Fragments(data, draws, p.frames);
            ClosedForm(p, Sending(p, data, draws, latency, budget), ws, Room(ws, draws, p.frames, budget))
    decreases |data|
  {
    if data == [] {
      NothingToSend(p, draws, latency, budget);
      hide *;
    } else {
      SendingNext(p, data, draws, latency, budget);
      hide *;
      var w := NextFrame(draws(p.frames), data);
      var bytes, rest := Encode(w.frame, w.pad), data[|w.frame.payload|..];
      if PadFails(draws(p.frames), w) || |bytes| > budget {
        SendingStops(p, data, draws, latency, budget);
      } else {
        var p' := Progress(p.sent + bytes, p.frames + 1, Pacer.Observe(p.pacer, latency(p.frames)));
        SendingIs(p', rest, draws, latency, budget - |bytes|);
        SendingGoes(p, data, draws, latency, budget, p', rest, budget - |bytes|);
      }
    }
  }

  lemma NothingToSend(p: Progress, draws: Draws, latency: nat -> real, budget: nat)
    ensures var ws := Fragments([], draws, p.frames);
            ClosedForm(p, Sending(p, [], draws, latency, budget), ws, Room(ws, draws, p.frames, budget))
  {
    NoFragments(draws, p.frames);
    SendingDone(p, draws, latency, budget);
    assert p.sent + [] == p.sent;
  }

  /** The pacer has seen the latencies of the frames attempted. */
  lemma {:induction false} SendingPaces(p: Progress, data: seq<Byte>, draws: Draws, latency: nat -> real, budget: nat,
                                        start: Pacer.State)
    requires p.pacer == Pacer.Run(start, FirstLatencies(latency, p.frames))
    ensures var q := Sending(p, data, draws, latency, budget).0;
            q.pacer == Pacer.Run(start, FirstLatencies(latency, q.frames))
    decreases |data|
  {
    if data == [] {
      SendingDone(p, draws, latency, budget);
    } else {
      SendingNext(p, data, draws, latency, budget);
      OneMoreLatency(start, latency, p.frames);
      hide *;
      var w := NextFrame(draws(p.frames), data);
      var bytes, paced := Encode(w.frame, w.pad), Pacer.Observe(p.pacer, latency(p.frames));
      if !PadFails(draws(p.frames), w) && |bytes| <= budget {
        SendingPaces(Progress(p.sent + bytes, p.frames + 1, paced), data[|w.frame.payload|..], draws, latency,
                     budget - |bytes|, start);
      }
    }
  }

  lemma Regroup(a: seq<Byte>, b: seq<Byte>, c: seq<Byte>)
    ensures (a + b) + c == a + (b + c)
  {
  }

  lemma SendingDone(p: Progress, draws: Draws, latency: nat -> real, budget: nat)
    ensures Sending(p, [], draws, latency, budget) == (p, true)
  {
  }

  /** The whole loop in closed form. */
  lemma SendingAll(sent: seq<Byte>, start: Pacer.State, data: seq<Byte>, draws: Draws, latency: nat -> real,
                   capacity: nat)
    ensures var ws := Fragments(data, draws, 0);
            var e := EncodeAll(ws);
            var (q, ok) := Sending(Progress(sent, 0, start), data, draws, latency, capacity);
            var room := Room(ws, draws, 0, capacity);
            && ok == (|e| <= room)
            && q.sent == sent + e[..Min(room, |e|)]
            && q.frames == Attempts(ws, room)
            && q.pacer == Pacer.Run(start, FirstLatencies(latency, q.frames))
  {
    NoLatency(start, latency);
    SendingPaces(Progress(sent, 0, start), data, draws, latency, capacity, start);
    SendingIs(Progress(sent, 0, start), data, draws, latency, capacity);
    AttemptsExact(Fragments(data, draws, 0), Room(Fragments(data, draws, 0), draws, 0, capacity));
    hide *;
  }

  /** One iteration of the loop: write the frame, then report how long the write took. */
  method SendFrame(fw: Writer, pacer: Pacer.Pacer, d: Draw, w: WireFrame, latency: real, budget: nat)
    returns (ok: bool)
    requires Legal(w.frame) && |w.pad| == w.frame.padLen
    modifies fw, fw.buf, pacer
    ensures fw.buf == old(fw.buf) || fresh(fw.buf)
    ensures var part := Encode(w.frame, w.pad);
            && ok == (!PadFails(d, w) && budget >= |part|)
            && (PadFails(d, w) ==> fw.sent == old(fw.sent))
            && (!PadFails(d, w) ==> fw.sent == old(fw.sent) + (if ok then part else part[..budget]))
    ensures pacer.Value() == Pacer.Observe(old(pacer.Value()), latency)
  {
    hide Encode, Pacer.Observe;
    ghost var part := Encode(w.frame, w.pad);
    assert part[..|part|] == part;
    var r := fw.WriteFrame(w.frame, if d.padOk then Some(w.pad) else None, budget);
    pacer.ObserveWrite(latency);
    ok := r.Written?;
  }

  /** One round of the loop: cut the next frame, write it and go on with the rest unless that failed. */
  method SendNext(fw: Writer, pacer: Pacer.Pacer, remaining: seq<Byte>, draws: Draws, latency: nat -> real,
                  frames: nat, budget: nat) returns (ok: bool, rest: seq<Byte>, left: nat)
    requires remaining != []
    modifies fw, fw.buf, pacer
    ensures fw.buf == old(fw.buf) || fresh(fw.buf)
    ensures |rest| < |remaining|
    ensures var end := Sending(Progress(old(fw.sent), frames, old(pacer.Value())), remaining, draws, latency, budget);
            var now := Progress(fw.sent, frames + 1, pacer.Value());
            end == if ok then Sending(now, rest, draws, latency, left) else (now, false)
  {
    SendingNext(Progress(fw.sent, frames, pacer.Value()), remaining, draws, latency, budget);
    hide Sending, Encode, NextFrame, Pacer.Observe, PadFails;
    var w := NextFrame(draws(frames), remaining);
    ok := SendFrame(fw, pacer, draws(frames), w, latency(frames), budget);
    rest := remaining[|w.frame.payload|..];
    left := if ok then budget - (HEADER_SIZE + |w.frame.payload| + |w.pad|) else 0;
    ghost var sent, part := old(fw.sent), Encode(w.frame, w.pad);
    ghost var seen := Pacer.Observe(old(pacer.Value()), latency(frames));
    ghost var now := Progress(fw.sent, frames + 1, pacer.Value());
    assert PadFails(draws(frames), w) ==> now == Progress(sent, frames + 1, seen);
    assert !ok && !PadFails(draws(frames), w) ==> now == Progress(sent + part[..budget], frames + 1, seen);
    assert ok ==> now == Progress(sent + part, frames + 1, seen);
  }

  /** fragmentAndSend: the writer receives the encoded fragments, as far as the channel takes
      them and up to the first whose padding cannot be drawn, and the pacer sees one latency per
      frame attempted. `capacity` is how many more bytes the channel takes before it fails for
      good. */
  method FragmentAndSend(fw: Writer, pacer: Pacer.Pacer, data: seq<Byte>, draws: Draws,
                         latency: nat -> real, capacity: nat) returns (ok: bool, frames: nat)
    modifies fw, fw.buf, pacer
    ensures var ws := Fragments(data, draws, 0);
            var e, room := EncodeAll(ws), Room(ws, draws, 0, capacity);
            && ok == (room >= |e|)
            && fw.sent == old(fw.sent) + e[..Min(room, |e|)]
            && frames == Attempts(ws, room)
    ensures pacer.Value() == Pacer.Run(old(pacer.Value()), FirstLatencies(latency, frames))
  {
    ghost var end := Sending(Progress(fw.sent, 0, pacer.Value()), data, draws, latency, capacity);
    SendingAll(fw.sent, pacer.Value(), data, draws, latency, capacity);
    hide *;
    var remaining := data;
    var budget: nat := capacity;
    frames := 0;
    while remaining != []
      invariant fw.buf == old(fw.buf) || fresh(fw.buf)
      invariant Sending(Progress(fw.sent, frames, pacer.Value()), remaining, draws, latency, budget) == end
      decreases |remaining|
    {
      ok, remaining, budget := SendNext(fw, pacer, remaining, draws, latency, frames, budget);
      frames := frames + 1;
      if !ok {
        return;
      }
    }
    SendingDone(Progress(fw.sent, frames, pacer.Value()), draws, latency, budget);
    ok := true;
  }

  lemma NoLatency(s: Pacer.State, latency: nat -> real)
    ensures Pacer.Run(s, FirstLatencies(latency, 0)) == s
  {
  }

  lemma NoFragments(draws: Draws, k: nat)
    ensures Fragments([], draws, k) == []
  {
  }
}
