/** Streams of frames: what a reader that keeps calling ReadFrame sees. */
module FrameStream {
  import opened Bytes
  import opened FrameCodec

  /** The frames a reader obtains from s, the error that stops it and the bytes it stopped at. */
  datatype Decoded = Decoded(frames: seq<Frame>, error: ReadError, tail: seq<Byte>)

  function Decode(s: seq<Byte>): (d: Decoded)
    decreases |s|
  {
    match Parse(s)
    case Ok(f, rest) =>
      var d := Decode(rest);
      Decoded([f] + d.frames, d.error, d.tail)
    case Err(e, _) => Decoded([], e, s)
  }

  /** A frame together with the padding bytes drawn for it. */
  datatype WireFrame = WireFrame(frame: Frame, pad: seq<Byte>)

  predicate LegalWire(w: WireFrame) {
    Legal(w.frame) && |w.pad| == w.frame.padLen
  }

  predicate AllLegal(ws: seq<WireFrame>) {
    forall i :: 0 <= i < |ws| ==> LegalWire(ws[i])
  }

  function EncodeAll(ws: seq<WireFrame>): (s: seq<Byte>) {
    if ws == [] then [] else Encode(ws[0].frame, ws[0].pad) + EncodeAll(ws[1..])
  }

  function FramesOf(ws: seq<WireFrame>): (fs: seq<Frame>)
    ensures |fs| == |ws|
  {
    if ws == [] then [] else [ws[0].frame] + FramesOf(ws[1..])
  }

  function Prepend(fs: seq<Frame>, d: Decoded): Decoded {
    d.(frames := fs + d.frames)
  }

  lemma DecodeCons(w: WireFrame, rest: seq<Byte>)
    requires LegalWire(w)
    ensures Decode(Encode(w.frame, w.pad) + rest) == Prepend([w.frame], Decode(rest))
  {
    ParseEncode(w.frame, w.pad, rest);
  }

  /** Decoding a stream of whole frames followed by t yields those frames and goes on with t. */
  lemma {:induction false} DecodeEncoded(ws: seq<WireFrame>, t: seq<Byte>)
    requires AllLegal(ws)
    ensures Decode(EncodeAll(ws) + t) == Prepend(FramesOf(ws), Decode(t))
  {
    hide Decode, Encode;
    if ws == [] {
      assert EncodeAll(ws) + t == t;
    } else {
      var rest := EncodeAll(ws[1..]) + t;
      assert EncodeAll(ws) + t == Encode(ws[0].frame, ws[0].pad) + rest;
      DecodeCons(ws[0], rest);
      DecodeEncoded(ws[1..], t);
    }
  }

  lemma FirstFrame(s: seq<Byte>) returns (w: WireFrame)
    requires Parse(s).Ok?
    ensures LegalWire(w) && w.frame == Parse(s).frame
    ensures s == Encode(w.frame, w.pad) + Parse(s).rest
    ensures |Parse(s).rest| < |s|
  {
    hide Encode;
    var pad := ParseSound(s);
    w := WireFrame(Parse(s).frame, pad);
  }

  /** Every byte string splits into whole legal frames and the tail that stops the reader. */
  lemma {:induction false} DecodeSound(s: seq<Byte>) returns (ws: seq<WireFrame>)
    ensures AllLegal(ws) && FramesOf(ws) == Decode(s).frames
    ensures s == EncodeAll(ws) + Decode(s).tail
    decreases |s|
  {
    hide Encode, Parse;
    if Parse(s).Err? {
      ws := [];
    } else {
      var w := FirstFrame(s);
      var ws' := DecodeSound(Parse(s).rest);
      ws := [w] + ws';
      assert ws[1..] == ws';
      assert s == Encode(w.frame, w.pad) + (EncodeAll(ws') + Decode(s).tail);
    }
  }

  /** Unique decodability: two lists of legal frames with the same bytes are the same list,
      padding included. */
  lemma {:induction false} EncodingUnique(a: seq<WireFrame>, b: seq<WireFrame>)
    requires AllLegal(a) && AllLegal(b)
    requires EncodeAll(a) == EncodeAll(b)
    ensures a == b
  {
    if a != [] && b != [] {
      var f, g := a[0], b[0];
      var restA, restB := EncodeAll(a[1..]), EncodeAll(b[1..]);
      ParseEncode(f.frame, f.pad, restA);
      ParseEncode(g.frame, g.pad, restB);
      assert f.frame == g.frame;
      var n := HEADER_SIZE + |f.frame.payload|;
      assert EncodeAll(a)[n..n + |f.pad|] == f.pad;
      assert EncodeAll(b)[n..n + |g.pad|] == g.pad;
      EncodingUnique(a[1..], b[1..]);
    }
  }

  /** A stream that is whole frames up to its end. */
  predicate Clean(s: seq<Byte>) {
    Decode(s).tail == []
  }

  /** Appending bytes to a clean stream does not disturb the frames already there. */
  lemma DecodeAppend(s: seq<Byte>, t: seq<Byte>)
    requires Clean(s)
    ensures Decode(s + t) == Prepend(Decode(s).frames, Decode(t))
  {
    var ws := DecodeSound(s);
    assert s == EncodeAll(ws);
    DecodeEncoded(ws, t);
  }

  lemma DecodeEmpty()
    ensures Decode([]) == Decoded([], EndOfStream, [])
  {
  }

  lemma DecodeOne(f: Frame, pad: seq<Byte>)
    requires Legal(f) && |pad| == f.padLen
    ensures Decode(Encode(f, pad)) == Decoded([f], EndOfStream, [])
  {
    ParseEncode(f, pad, []);
    assert Encode(f, pad) + [] == Encode(f, pad);
    assert Decode([]) == Decoded([], EndOfStream, []);
  }

  /** Writing one more whole frame. */
  lemma DecodeWritten(s: seq<Byte>, f: Frame, pad: seq<Byte>)
    requires Clean(s) && Legal(f) && |pad| == f.padLen
    ensures Decode(s + Encode(f, pad)) == Decoded(Decode(s).frames + [f], EndOfStream, [])
  {
    DecodeAppend(s, Encode(f, pad));
    DecodeOne(f, pad);
  }

  /** A write cut short by a failing channel adds no frame and leaves nothing malformed. */
  lemma DecodeCut(s: seq<Byte>, f: Frame, pad: seq<Byte>, k: nat)
    requires Clean(s) && Legal(f) && |pad| == f.padLen && k < |Encode(f, pad)|
    ensures Decode(s + Encode(f, pad)[..k]) == Decoded(Decode(s).frames, EndOfStream, Encode(f, pad)[..k])
  {
    ParsePartial(f, pad, k);
    DecodeAppend(s, Encode(f, pad)[..k]);
    assert Decode(s).frames + [] == Decode(s).frames;
  }

  /** However the channel is cut, a reader sees a prefix of the frames written and, at worst,
      the end of the stream: never a malformed frame. */
  lemma {:induction false} DecodePrefix(ws: seq<WireFrame>, k: nat)
    requires AllLegal(ws) && k <= |EncodeAll(ws)|
    ensures Decode(EncodeAll(ws)[..k]).frames <= FramesOf(ws)
    ensures Decode(EncodeAll(ws)[..k]).error == EndOfStream
  {
    hide Parse, Encode;
    if ws == [] {
      assert Decode([]) == Decoded([], EndOfStream, []) by { DecodeEmpty(); }
    } else {
      var e := Encode(ws[0].frame, ws[0].pad);
      var s := EncodeAll(ws);
      if k < |e| {
        assert s[..k] == e[..k];
        ParsePartial(ws[0].frame, ws[0].pad, k);
      } else {
        var t := EncodeAll(ws[1..])[..k - |e|];
        assert s[..k] == e + t;
        DecodeCons(ws[0], t);
        DecodePrefix(ws[1..], k - |e|);
      }
    }
  }

  // ----- projections of a frame list -----

  /** The payloads of the frames of one kind, in order. */
  function Payloads(fs: seq<Frame>, kind: Byte): seq<seq<Byte>> {
    if fs == [] then []
    else (if fs[0].kind == kind then [fs[0].payload] else []) + Payloads(fs[1..], kind)
  }

  lemma {:induction false} PayloadsAppend(a: seq<Frame>, b: seq<Frame>, kind: Byte)
    ensures Payloads(a + b, kind) == Payloads(a, kind) + Payloads(b, kind)
  {
    if a == [] {
      assert a + b == b;
    } else {
      assert (a + b)[1..] == a[1..] + b;
      PayloadsAppend(a[1..], b, kind);
    }
  }

  /** The application bytes a list of frames carries. */
  function DataOf(fs: seq<Frame>): seq<Byte> {
    Flatten(Payloads(fs, DATA))
  }

  lemma DataAppend(a: seq<Frame>, b: seq<Frame>)
    ensures DataOf(a + b) == DataOf(a) + DataOf(b)
  {
    PayloadsAppend(a, b, DATA);
    FlattenAppend(Payloads(a, DATA), Payloads(b, DATA));
  }

  lemma DataOne(f: Frame)
    ensures DataOf([f]) == if f.kind == DATA then f.payload else []
  {
    if f.kind == DATA {
      assert Payloads([f], DATA) == [f.payload];
      FlattenOne(f.payload);
    } else {
      assert Payloads([f], DATA) == [];
    }
  }
}
