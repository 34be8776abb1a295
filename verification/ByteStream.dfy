/** A byte stream as io.Reader delivers it: in chunks of any size, and the
    io.ReadFull loop over it. */
module ByteStream {
  import opened Wrappers

  type byte = x: int | 0 <= x < 256

  /** End of input before the first byte, or in the middle of what was wanted. */
  datatype ReadError = Eof | UnexpectedEof

  function Flatten(chunks: seq<seq<byte>>): seq<byte> {
    if chunks == [] then [] else chunks[0] + Flatten(chunks[1..])
  }

  /** What io.ReadFull makes of a stream: n bytes and the rest, or everything consumed and an error. */
  function Take(s: seq<byte>, n: nat): (Result<seq<byte>, ReadError>, seq<byte>) {
    if |s| >= n then (Ok(s[..n]), s[n..])
    else (Err(if s == [] then Eof else UnexpectedEof), [])
  }

  class Reader {
    var chunks: seq<seq<byte>>

    ghost function Pending(): seq<byte>
      reads this
    {
      Flatten(chunks)
    }

    constructor (chunks: seq<seq<byte>>)
      ensures Pending() == Flatten(chunks)
    {
      this.chunks := chunks;
    }

    /** One Read call: at most `max` bytes, as many as the next chunk has; None at the end of input. */
    method Read(max: nat) returns (r: Option<seq<byte>>)
      requires max > 0
      modifies this
      ensures match r
              case None => old(Pending()) == [] && Pending() == []
              case Some(got) => |got| <= max && old(Pending()) == got + Pending()
      ensures r.Some? ==> |chunks| < |old(chunks)| || (|chunks| == |old(chunks)| && |r.value| == max)
    {
      if chunks == [] {
        return None;
      }
      var c := chunks[0];
      if |c| <= max {
        chunks := chunks[1..];
        r := Some(c);
      } else {
        chunks := [c[max..]] + chunks[1..];
        assert c == c[..max] + c[max..];
        r := Some(c[..max]);
      }
    }

    /** io.ReadFull into buf[:n]. */
    method ReadFull(buf: array<byte>, n: nat) returns (r: Result<(), ReadError>)
      requires n <= buf.Length
      modifies this, buf
      ensures match Take(old(Pending()), n)
              case (Ok(got), rest) => r == Ok(()) && buf[..n] == got && Pending() == rest
              case (Err(e), rest) => r == Err(e) && Pending() == rest
      ensures buf[n..] == old(buf[n..])
    {
      var have := 0;
      while have < n
        invariant 0 <= have <= n
        invariant old(Pending()) == buf[..have] + Pending()
        invariant buf[n..] == old(buf[n..])
        decreases n - have, |chunks|
      {
        var got := Read(n - have);
        if got == None {
          assert old(Pending()) == buf[..have];
          return Err(if have == 0 then Eof else UnexpectedEof);
        }
        var g := got.value;
        ghost var before := buf[..have];
        for i := 0 to |g|
          modifies buf
          invariant buf[..have] == before && buf[have..have + i] == g[..i]
          invariant buf[n..] == old(buf[n..])
        {
          buf[have + i] := g[i];
        }
        assert buf[..have + |g|] == before + g;
        have := have + |g|;
      }
      assert old(Pending())[..n] == buf[..n] && old(Pending())[n..] == Pending();
      r := Ok(());
    }
  }
}
