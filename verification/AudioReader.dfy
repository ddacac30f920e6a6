/** countingReader over a stream that does not fail: bytes, and a count. */
module AudioReader {
  import opened Bytes

  datatype ReadError = NoError | Eof | UnexpectedEof

  /** limit is the absolute offset an io.LimitReader on top stops at; it is the
      stream's length when there is none. */
  class CountingReader {
    const data: seq<byte>
    var n: nat

    constructor (data: seq<byte>)
      ensures this.data == data && n == 0
    {
      this.data := data;
      n := 0;
    }

    ghost predicate Within(limit: nat)
      reads this
    {
      n <= limit <= |data|
    }

    /** The bytes left before the limit. */
    ghost function Left(limit: nat): seq<byte>
      requires Within(limit)
      reads this
    {
      data[n..limit]
    }

    /** io.ReadFull into a buffer of size bytes. */
    method ReadFull(size: nat, limit: nat) returns (buf: seq<byte>, err: ReadError)
      requires Within(limit)
      modifies this
      ensures Within(limit) && old(n) <= n
      ensures err == NoError <==> size <= |old(Left(limit))|
      ensures err == NoError ==> buf == old(Left(limit))[..size] && n == old(n) + size
      ensures err == NoError ==> Left(limit) == old(Left(limit))[size..]
      ensures err != NoError ==> n == limit
    {
      if size <= limit - n {
        buf := data[n..n + size];
        n := n + size;
        err := NoError;
      } else {
        err := if n == limit then Eof else UnexpectedEof;
        buf := [];
        n := limit;
      }
    }

    /** io.CopyN to io.Discard: a negative count copies nothing without error. */
    method Discard(count: int, limit: nat) returns (ok: bool)
      requires Within(limit)
      modifies this
      ensures Within(limit) && old(n) <= n
      ensures ok <==> count <= |old(Left(limit))|
      ensures ok ==> Left(limit) == if count < 0 then old(Left(limit)) else old(Left(limit))[count..]
      ensures !ok ==> n == limit
    {
      if count <= limit - n {
        n := if count < 0 then n else n + count;
        ok := true;
      } else {
        n := limit;
        ok := false;
      }
    }

    /** io.Copy to io.Discard. */
    method Drain(limit: nat)
      requires Within(limit)
      modifies this
      ensures n == limit
    {
      n := limit;
    }
  }
}
