/** The wire frame: an 11-byte header, the payload and random padding
    (pkg/protocol/frame.go). */
module FrameCodec {
  import opened Bytes
  import Stream

  const HEADER_SIZE := 11
  const MAX_PAYLOAD := 65535
  const MAX_PADDING := 1024

  const DATA: Byte := 1
  const PING: Byte := 5
  const PONG: Byte := 6

  datatype Frame = Frame(kind: Byte, streamId: Uint32, payload: seq<Byte>, padLen: Uint16)

  /** What the writer accepts and the reader lets through. */
  predicate Legal(f: Frame) {
    |f.payload| <= MAX_PAYLOAD && f.padLen <= MAX_PADDING
  }

  function Header(kind: Byte, streamId: nat, length: nat, padLen: nat): (h: seq<Byte>)
    ensures |h| == HEADER_SIZE
  {
    [kind] + BigEndian(streamId, 4) + BigEndian(length, 4) + BigEndian(padLen, 2)
  }

  /** The bytes of one frame, with the given padding bytes. */
  function Encode(f: Frame, pad: seq<Byte>): (s: seq<Byte>)
    ensures |s| == HEADER_SIZE + |f.payload| + |pad|
  {
    Header(f.kind, f.streamId, |f.payload|, f.padLen) + f.payload + pad
  }

  // ----- parsing -----

  datatype ReadError = FrameTooLarge | PaddingTooLarge | EndOfStream

  /** A parsed frame or an error, with the bytes the reader has not consumed. */
  datatype Parsed = Ok(frame: Frame, rest: seq<Byte>) | Err(error: ReadError, rest: seq<Byte>)

  function KindOf(s: seq<Byte>): Byte requires |s| >= HEADER_SIZE { s[0] }
  function StreamIdOf(s: seq<Byte>): (v: Uint32) requires |s| >= HEADER_SIZE { Widths(); FromBigEndian(s[1..5]) }
  function LengthOf(s: seq<Byte>): (v: Uint32) requires |s| >= HEADER_SIZE { Widths(); FromBigEndian(s[5..9]) }
  function PadLenOf(s: seq<Byte>): (v: Uint16) requires |s| >= HEADER_SIZE { Widths(); FromBigEndian(s[9..11]) }

  function Parse(s: seq<Byte>): (p: Parsed)
  {
    if |s| < HEADER_SIZE then Err(EndOfStream, [])
    else if LengthOf(s) > MAX_PAYLOAD then Err(FrameTooLarge, s[HEADER_SIZE..])
    else if PadLenOf(s) > MAX_PADDING then Err(PaddingTooLarge, s[HEADER_SIZE..])
    else
      var bodyEnd := HEADER_SIZE + LengthOf(s);
      var end := bodyEnd + PadLenOf(s);
      if |s| < end then Err(EndOfStream, [])
      else Ok(Frame(KindOf(s), StreamIdOf(s), s[HEADER_SIZE..bodyEnd], PadLenOf(s)), s[end..])
  }

  /** The header fields read back from the first 11 bytes. */
  lemma HeaderFields(s: seq<Byte>, kind: Byte, streamId: Uint32, length: Uint32, padLen: Uint16)
    requires |s| >= HEADER_SIZE && s[..HEADER_SIZE] == Header(kind, streamId, length, padLen)
    ensures KindOf(s) == kind && StreamIdOf(s) == streamId
    ensures LengthOf(s) == length && PadLenOf(s) == padLen
  {
    Widths();
    var h := s[..HEADER_SIZE];
    assert s[0] == h[0] == kind;
    assert s[1..5] == h[1..5] == BigEndian(streamId, 4);
    assert s[5..9] == h[5..9] == BigEndian(length, 4);
    assert s[9..11] == h[9..11] == BigEndian(padLen, 2);
    BigEndianDecodes(streamId, 4);
    BigEndianDecodes(length, 4);
    BigEndianDecodes(padLen, 2);
  }

  /** Round trip: an encoded legal frame followed by anything parses back to that frame,
      and exactly its 11 + len + pad bytes are consumed. */
  lemma ParseEncode(f: Frame, pad: seq<Byte>, rest: seq<Byte>)
    requires Legal(f) && |pad| == f.padLen
    ensures Parse(Encode(f, pad) + rest) == Ok(f, rest)
  {
    var s := Encode(f, pad) + rest;
    var h := Header(f.kind, f.streamId, |f.payload|, f.padLen);
    assert s == h + (f.payload + pad + rest);
    assert s[..HEADER_SIZE] == h;
    HeaderFields(s, f.kind, f.streamId, |f.payload|, f.padLen);
    var bodyEnd := HEADER_SIZE + |f.payload|;
    assert s[HEADER_SIZE..bodyEnd] == f.payload;
    assert s[bodyEnd + f.padLen..] == rest;
  }

  lemma HeaderOf(s: seq<Byte>)
    requires |s| >= HEADER_SIZE
    ensures s[..HEADER_SIZE] == Header(KindOf(s), StreamIdOf(s), LengthOf(s), PadLenOf(s))
  {
    BigEndianEncodes(s[1..5]);
    BigEndianEncodes(s[5..9]);
    BigEndianEncodes(s[9..11]);
    assert s[..HEADER_SIZE] == [s[0]] + s[1..5] + s[5..9] + s[9..11];
  }

  /** Soundness on arbitrary bytes: whatever parses is the encoding of a legal frame with some
      padding, so nothing but well-formed frames is ever returned. */
  lemma ParseSound(s: seq<Byte>) returns (pad: seq<Byte>)
    requires Parse(s).Ok?
    ensures Legal(Parse(s).frame) && |pad| == Parse(s).frame.padLen
    ensures s == Encode(Parse(s).frame, pad) + Parse(s).rest
  {
    HeaderOf(s);
    hide Header;
    var f := Parse(s).frame;
    var bodyEnd := HEADER_SIZE + |f.payload|;
    pad := s[bodyEnd..bodyEnd + f.padLen];
    assert s == s[..HEADER_SIZE] + s[HEADER_SIZE..bodyEnd] + pad + s[bodyEnd + f.padLen..];
  }

  /** On arbitrary bytes the reader never consumes more than one maximal frame, and stops right
      after the header when it rejects one. */
  lemma ParseBounded(s: seq<Byte>)
    ensures Parse(s).Ok? ==>
              |s| - |Parse(s).rest| == HEADER_SIZE + |Parse(s).frame.payload| + Parse(s).frame.padLen
              <= HEADER_SIZE + MAX_PAYLOAD + MAX_PADDING
    ensures Parse(s).Err? && Parse(s).error != EndOfStream ==> |s| - |Parse(s).rest| == HEADER_SIZE
    ensures Parse(s) == Err(EndOfStream, Parse(s).rest) ==>
              Parse(s).rest == [] && |s| < HEADER_SIZE + MAX_PAYLOAD + MAX_PADDING
    ensures |Parse(s).rest| <= |s| && Parse(s).rest == s[|s| - |Parse(s).rest|..]
  {
  }

  /** A proper prefix of an encoded frame is neither a frame nor malformed: it only asks for
      more bytes. */
  lemma ParsePartial(f: Frame, pad: seq<Byte>, k: nat)
    requires Legal(f) && |pad| == f.padLen
    requires k < |Encode(f, pad)|
    ensures Parse(Encode(f, pad)[..k]) == Err(EndOfStream, [])
  {
    var e := Encode(f, pad);
    var s := e[..k];
    if k >= HEADER_SIZE {
      var h := Header(f.kind, f.streamId, |f.payload|, f.padLen);
      assert e == h + (f.payload + pad);
      assert s[..HEADER_SIZE] == h;
      HeaderFields(s, f.kind, f.streamId, |f.payload|, f.padLen);
    }
  }

  /** Where each field of a frame is: type at 0, stream ID at 1, length at 5, padding length at 9,
      numbers big-endian, then payload and padding. */
  lemma FrameLayout(f: Frame, pad: seq<Byte>)
    requires Legal(f) && |pad| == f.padLen
    ensures var s, n := Encode(f, pad), |f.payload|;
            && s[0] == f.kind && FromBigEndian(s[1..5]) == f.streamId && FromBigEndian(s[5..9]) == n
            && FromBigEndian(s[9..11]) == f.padLen && s[11..11 + n] == f.payload && s[11 + n..] == pad
  {
    var s, h := Encode(f, pad), Header(f.kind, f.streamId, |f.payload|, f.padLen);
    assert s == h + (f.payload + pad);
    assert s[..HEADER_SIZE] == h;
    HeaderFields(s, f.kind, f.streamId, |f.payload|, f.padLen);
    hide BigEndian, FromBigEndian, Header;
  }

  // ----- the reader -----

  /** Reader.ReadFrame: three exact reads over a channel that may split them anywhere. */
  class Reader {
    const src: Stream.Source

    constructor (src: Stream.Source)
      ensures this.src == src
    {
      this.src := src;
    }

    method ReadFrame() returns (p: Parsed)
      modifies src
      ensures p == Parse(old(src.data)) && src.data == p.rest
    {
      ghost var s := src.data;
      var hdr := src.ReadFull(HEADER_SIZE);
      if hdr.None? {
        return Err(EndOfStream, src.data);
      }
      var h := hdr.value;
      assert h == s[..HEADER_SIZE] && h[1..5] == s[1..5] && h[5..9] == s[5..9] && h[9..11] == s[9..11];
      var length, padLen := LengthOf(h), PadLenOf(h);
      if length > MAX_PAYLOAD {
        return Err(FrameTooLarge, src.data);
      }
      if padLen > MAX_PADDING {
        return Err(PaddingTooLarge, src.data);
      }
      var body := src.ReadFull(length);
      if body.None? {
        return Err(EndOfStream, src.data);
      }
      var pad := src.ReadFull(padLen);
      if pad.None? {
        return Err(EndOfStream, src.data);
      }
      assert src.data == s[HEADER_SIZE + length + padLen..];
      p := Ok(Frame(KindOf(h), StreamIdOf(h), body.value, padLen), src.data);
    }
  }

  // ----- the writer -----

  datatype WriteError = PayloadTooLarge | PaddingRejected | RandomFailed | ChannelFailed
  datatype WriteResult = Written | Failed(error: WriteError)

  function Min(a: int, b: int): int { if a < b then a else b }

  /** Copying src right after a known prefix makes the known prefix longer. */
  lemma Overlay(pre: seq<Byte>, rest: seq<Byte>, src: seq<Byte>)
    requires |src| <= |rest|
    ensures (pre + rest)[..|pre|] + src + (pre + rest)[|pre| + |src|..] == (pre + src) + rest[|src|..]
  {
  }

  method FillHeader(dst: array<Byte>, f: Frame)
    requires dst.Length >= HEADER_SIZE
    modifies dst
    ensures dst[..] == Header(f.kind, f.streamId, |f.payload|, f.padLen) + old(dst[HEADER_SIZE..])
  {
    hide BigEndian;
    var a, b, c := BigEndian(f.streamId, 4), BigEndian(|f.payload|, 4), BigEndian(f.padLen, 2);
    ghost var d := dst[..];
    Blit(dst, 0, [f.kind]);
    assert dst[..] == [f.kind] + d[1..];
    Overlay([f.kind], d[1..], a);
    Blit(dst, 1, a);
    assert dst[..] == ([f.kind] + a) + d[5..];
    Overlay([f.kind] + a, d[5..], b);
    Blit(dst, 5, b);
    assert dst[..] == ([f.kind] + a + b) + d[9..];
    Overlay([f.kind] + a + b, d[9..], c);
    Blit(dst, 9, c);
    assert dst[..] == ([f.kind] + a + b + c) + d[11..];
  }

  method FillBody(dst: array<Byte>, f: Frame)
    requires dst.Length >= HEADER_SIZE + |f.payload|
    modifies dst
    ensures dst[..] == Encode(f, []) + old(dst[HEADER_SIZE + |f.payload|..])
  {
    FillHeader(dst, f);
    Blit(dst, HEADER_SIZE, f.payload);
  }

  lemma EncodeSplit(f: Frame, pad: seq<Byte>)
    ensures Encode(f, pad) == Encode(f, []) + pad
  {
    assert Encode(f, []) == Header(f.kind, f.streamId, |f.payload|, f.padLen) + f.payload;
  }

  /** Writer.WriteFrame with its reused, growing buffer. `sent` is what the underlying channel
      has taken. */
  class Writer {
    var buf: array<Byte>
    var sent: seq<Byte>

    constructor ()
      ensures fresh(buf) && sent == []
    {
      buf := new Byte[4096];
      sent := [];
    }

    /** `noise` is what the random source produces for the padding (None when it fails) and
        `accept` is how many bytes the channel takes before it fails. Whatever earlier frames
        left in the buffer, what goes out is a prefix of the pure encoding of this frame with
        this padding, and the whole of it exactly when the call succeeds. */
    method WriteFrame(f: Frame, noise: Option<seq<Byte>>, accept: nat) returns (r: WriteResult)
      requires noise.Some? ==> |noise.value| == f.padLen
      modifies this, buf
      ensures buf == old(buf) || fresh(buf)
      ensures buf.Length >= old(buf.Length)
      ensures !Legal(f) ==> sent == old(sent)
      ensures !Legal(f) ==> r == Failed(if |f.payload| > MAX_PAYLOAD then PayloadTooLarge else PaddingRejected)
      ensures Legal(f) && f.padLen > 0 && noise.None? ==> r == Failed(RandomFailed) && sent == old(sent)
      ensures Legal(f) && (f.padLen == 0 || noise.Some?) ==>
                var e := Encode(f, if f.padLen == 0 then [] else noise.value);
                && sent == old(sent) + e[..Min(accept, |e|)]
                && r == (if accept >= |e| then Written else Failed(ChannelFailed))
    {
      if |f.payload| > MAX_PAYLOAD {
        return Failed(PayloadTooLarge);
      }
      if f.padLen > MAX_PADDING {
        return Failed(PaddingRejected);
      }
      var total := HEADER_SIZE + |f.payload| + f.padLen;
      if buf.Length < total {
        buf := new Byte[total * 2];
      }
      FillBody(buf, f);
      if f.padLen > 0 {
        if noise.None? {
          return Failed(RandomFailed);
        }
        Blit(buf, HEADER_SIZE + |f.payload|, noise.value);
      }
      ghost var e := Encode(f, if f.padLen == 0 then [] else noise.value);
      EncodeSplit(f, if f.padLen == 0 then [] else noise.value);
      hide Encode;
      assert buf[..total] == e;
      var n := Min(accept, total);
      sent := sent + buf[..n];
      assert buf[..n] == e[..n];
      r := if accept >= total then Written else Failed(ChannelFailed);
    }
  }

  // ----- STREAM_OPEN payload -----

  datatype StreamOpen = StreamOpen(addrType: Byte, addr: seq<Byte>, port: Uint16)

  function MarshalOpen(p: StreamOpen): (s: seq<Byte>)
  {
    [p.addrType, |p.addr| % 256] + p.addr + BigEndian(p.port, 2)
  }

  function UnmarshalOpen(b: seq<Byte>): (r: Option<StreamOpen>)
  {
    if |b| < 4 then None
    else
      var n: nat := b[1];
      if |b| < 2 + n + 2 then None
      else
        Widths();
        Some(StreamOpen(b[0], b[2..2 + n], FromBigEndian(b[2 + n..4 + n])))
  }

  /** The one-byte length wraps, so the round trip holds exactly for addresses below 256 bytes;
      longer ones still decode, to something else. */
  lemma OpenRoundTrip(p: StreamOpen)
    ensures UnmarshalOpen(MarshalOpen(p)).Some?
    ensures UnmarshalOpen(MarshalOpen(p)) == Some(p) <==> |p.addr| < 256
  {
    hide BigEndian, FromBigEndian;
    if |p.addr| < 256 {
      OpenShort(p);
    } else {
      assert MarshalOpen(p)[1] == |p.addr| % 256;
    }
  }

  lemma OpenShort(p: StreamOpen)
    requires |p.addr| < 256
    ensures UnmarshalOpen(MarshalOpen(p)) == Some(p)
  {
    Widths();
    BigEndianDecodes(p.port, 2);
    hide BigEndian, FromBigEndian;
    var s, n := MarshalOpen(p), |p.addr|;
    assert s[0] == p.addrType && s[1] == n;
    assert s[2..2 + n] == p.addr;
    assert s[2 + n..4 + n] == BigEndian(p.port, 2);
  }
}
