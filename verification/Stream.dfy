/** A reliable ordered byte channel, read through short reads. */
module Stream {
  import opened Bytes

  /** The receiving end of a channel. `data` is what is still to be read before the stream ends or
      fails; an eager source reports that together with the last bytes instead of after them. */
  class Source {
    const eager: bool
    var data: seq<Byte>

    constructor (bytes: seq<Byte>, eager: bool)
      ensures data == bytes && this.eager == eager
    {
      data := bytes;
      this.eager := eager;
    }

    /** One read into a buffer of n bytes. It may return fewer bytes than asked for, but makes
        progress while bytes are left; `end` is the error it returns. */
    method Read(n: nat) returns (chunk: seq<Byte>, end: bool)
      requires n > 0
      modifies this
      ensures |chunk| <= n
      ensures old(data) == chunk + data
      ensures chunk == [] <==> old(data) == []
      ensures end <==> chunk == [] || (eager && data == [])
    {
      if data == [] {
        return [], true;
      }
      var k :| 1 <= k <= n && k <= |data|;
      chunk := data[..k];
      data := data[k..];
      end := eager && data == [];
    }

    /** Read exactly n bytes, looping over short reads; an error that comes with the last byte
        needed is ignored. On a stream that is too short everything is consumed and the call fails.
        The outcome does not depend on how reads are split. */
    method ReadFull(n: nat) returns (r: Option<seq<Byte>>)
      modifies this
      ensures |old(data)| >= n ==> r == Some(old(data)[..n]) && data == old(data)[n..]
      ensures |old(data)| < n ==> r == None && data == []
    {
      var got: seq<Byte> := [];
      while |got| < n
        invariant |got| <= n
        invariant old(data) == got + data
        decreases n - |got|
      {
        var chunk, end := Read(n - |got|);
        got := got + chunk;
        if end && |got| < n {
          return None;
        }
      }
      return Some(got);
    }
  }
}
