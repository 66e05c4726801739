/** The CONNECT request that opens a proxied stream, written by the client, forwarded by a relay
    and read by the server (internal/tunnel/protocol.go, internal/relay/relay.go). */
module Connect {
  import opened Bytes
  import Stream

  const MAX_ADDR := 255

  /** Address type, address and port of the target. */
  datatype Target = Target(addrType: Byte, addr: seq<Byte>, port: Uint16)

  /** The request bytes; the length byte is truncated like the relay's unchecked conversion. */
  function Encode(t: Target): (b: seq<Byte>)
    ensures |b| == 4 + |t.addr|
  {
    [t.addrType, |t.addr| % 256] + t.addr + BigEndian(t.port, 2)
  }

  /** A request read from a stream, and the bytes after it. */
  datatype Request = Ok(target: Target, rest: seq<Byte>) | Refused(rest: seq<Byte>)

  /** What a reader makes of the bytes of a stream; the server refuses empty addresses right after
      the two header bytes, the relay does not. */
  function Decode(s: seq<Byte>, refuseEmpty: bool): Request {
    if |s| < 2 then Refused([])
    else
      var n: nat := s[1];
      if n == 0 && refuseEmpty then Refused(s[2..])
      else if |s| < 4 + n then Refused([])
      else Widths(); Ok(Target(s[0], s[2..2 + n], FromBigEndian(s[2 + n..4 + n])), s[4 + n..])
  }

  /** What the relay makes of them: its loops fail on an error even when it comes with the last
      byte needed, so an eager source must not end right after the request. */
  function RelayDecode(s: seq<Byte>, eager: bool): Request {
    var r := Decode(s, false);
    if eager && r.rest == [] then Refused([]) else r
  }

  /** The address and port within the bytes after the two header bytes. */
  lemma BodyParts(s: seq<Byte>, n: nat)
    requires |s| >= 4 + n
    ensures var body := s[2..][..n + 2];
            body[..n] == s[2..2 + n] && body[n..] == s[2 + n..4 + n] && s[2..][n + 2..] == s[4 + n..]
  {
  }

  /** tunnel's readConnectRequest: two exact reads. */
  method ServerReadRequest(src: Stream.Source) returns (r: Request)
    modifies src
    ensures r == Decode(old(src.data), true) && src.data == r.rest
  {
    ghost var s := src.data;
    var hdr := src.ReadFull(2);
    if hdr.None? {
      return Refused(src.data);
    }
    var n: nat := hdr.value[1];
    if n == 0 {
      return Refused(src.data);
    }
    var body := src.ReadFull(n + 2);
    if body.None? {
      return Refused(src.data);
    }
    BodyParts(s, n);
    Widths();
    r := Ok(Target(hdr.value[0], body.value[..n], FromBigEndian(body.value[n..])), src.data);
  }

  /** The relay's own short-read loop: fill a buffer of n bytes, stopping on an error. */
  method FillBuffer(src: Stream.Source, n: nat) returns (r: Option<seq<Byte>>)
    modifies src
    ensures var s := old(src.data);
            if |s| > n || (|s| == n && !(src.eager && n > 0)) then r == Some(s[..n]) && src.data == s[n..]
            else r == None && src.data == []
  {
    var buf := new Byte[n];
    var filled := 0;
    while filled < n
      invariant 0 <= filled <= n
      invariant old(src.data) == buf[..filled] + src.data
      invariant filled > 0 && src.eager ==> src.data != []
      decreases n - filled
    {
      var chunk, end := src.Read(n - filled);
      ghost var before := buf[..filled];
      Blit(buf, filled, chunk);
      assert buf[..filled + |chunk|] == before + chunk;
      filled := filled + |chunk|;
      if end {
        return None;
      }
    }
    assert buf[..n] == buf[..];
    r := Some(buf[..]);
  }

  method RelayReadRequest(src: Stream.Source) returns (r: Request)
    modifies src
    ensures r == RelayDecode(old(src.data), src.eager) && src.data == r.rest
  {
    ghost var s := src.data;
    var hdr := FillBuffer(src, 2);
    if hdr.None? {
      return Refused(src.data);
    }
    var n: nat := hdr.value[1];
    var body := FillBuffer(src, n + 2);
    if body.None? {
      return Refused(src.data);
    }
    BodyParts(s, n);
    var hi: int, lo: int := body.value[n], body.value[n + 1];
    PortBytes(body.value[n..]);
    r := Ok(Target(hdr.value[0], body.value[..n], hi * 256 + lo), src.data);
  }

  lemma PortBytes(b: seq<Byte>)
    requires |b| == 2
    ensures FromBigEndian(b) == (b[0] as int) * 256 + b[1]
  {
    assert b[..1] == [b[0]];
    assert FromBigEndian(b[..1]) == b[0] as int by { assert b[..1][..0] == []; }
  }

  /** tunnel's writeConnectRequest refuses addresses over 255 bytes. */
  function ClientWrite(t: Target): Option<seq<Byte>> {
    if |t.addr| > MAX_ADDR then None else Some(Encode(t))
  }

  /** What the relay forwards of a stream's opening bytes: the request it read, encoded again. */
  method RelayForward(downstream: Stream.Source) returns (out: Option<seq<Byte>>)
    modifies downstream
    ensures var r := RelayDecode(old(downstream.data), downstream.eager);
            downstream.data == r.rest && out == (if r.Ok? then Some(Encode(r.target)) else None)
    ensures out.Some? ==> out.value + downstream.data == old(downstream.data)
  {
    ghost var s := downstream.data;
    var r := RelayReadRequest(downstream);
    if r.Ok? {
      EncodeDecode(s, false);
    }
    out := if r.Ok? then Some(Encode(r.target)) else None;
  }

  /** Where each field of a request is. */
  lemma RequestLayout(t: Target)
    requires |t.addr| <= MAX_ADDR
    ensures var b, n := Encode(t), |t.addr|;
            b[0] == t.addrType && b[1] == n && b[2..2 + n] == t.addr && FromBigEndian(b[2 + n..]) == t.port
  {
    Widths();
    BigEndianDecodes(t.port, 2);
    var b, n := Encode(t), |t.addr|;
    hide BigEndian, FromBigEndian;
    assert b[2 + n..] == BigEndian(t.port, 2);
  }

  // ----- round trips -----

  /** A reader recovers the exact target exactly when the address has at most 255 bytes and is not
      refused for being empty. */
  lemma DecodeEncode(t: Target, later: seq<Byte>, refuseEmpty: bool)
    ensures Decode(Encode(t) + later, refuseEmpty) == Ok(t, later) <==>
            |t.addr| <= MAX_ADDR && !(refuseEmpty && t.addr == [])
  {
    Widths();
    var s := Encode(t) + later;
    assert s[0] == t.addrType && s[1] == |t.addr| % 256;
    var n := |t.addr|;
    if n <= MAX_ADDR {
      assert s[2..2 + n] == t.addr;
      assert s[2 + n..4 + n] == BigEndian(t.port, 2);
      BigEndianDecodes(t.port, 2);
      assert s[4 + n..] == later;
    }
  }

  /** Re-encoding what was decoded gives back the bytes consumed: the relay forwards every request
      it can read byte for byte, and can read every request whose bytes have all arrived. */
  lemma EncodeDecode(s: seq<Byte>, refuseEmpty: bool)
    requires Decode(s, refuseEmpty).Ok?
    ensures Encode(Decode(s, refuseEmpty).target) + Decode(s, refuseEmpty).rest == s
  {
    Widths();
    var n: nat := s[1];
    BigEndianEncodes(s[2 + n..4 + n]);
    assert s == [s[0], s[1]] + s[2..2 + n] + s[2 + n..4 + n] + s[4 + n..];
  }

  /** Relay transparency: for every target and whatever bytes follow, the relay passes on exactly
      the client's bytes unless an eager source ends right after them; and the server behind it
      decodes the client's exact target if and only if the address has between 1 and 255 bytes. */
  lemma RelayTransparent(t: Target, later: seq<Byte>, eager: bool, later': seq<Byte>)
    ensures ClientWrite(t).Some? ==>
              var r := RelayDecode(ClientWrite(t).value + later, eager);
              && (r == Ok(t, later) <==> !(eager && later == []))
              && (r.Ok? ==>
                    && r == Ok(t, later) && Encode(r.target) == ClientWrite(t).value
                    && (Decode(Encode(r.target) + later', true) == Ok(t, later') <==> t.addr != []))
    ensures ClientWrite(t).None? <==> |t.addr| > MAX_ADDR
  {
    DecodeEncode(t, later, false);
    DecodeEncode(t, later', true);
    hide Decode, Encode;
  }
}
