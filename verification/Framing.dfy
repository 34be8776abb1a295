/** Length-prefixed frames on the control channel. */
module Framing {
  import opened Wrappers
  import opened ByteStream

  const MAX_FRAME := 0x10_0000

  /** JSON, as far as frames care. */
  datatype Codec<!E> = Codec(marshal: E -> seq<byte>, unmarshal: seq<byte> -> Option<E>)

  datatype FrameError = Io(error: ReadError) | InvalidLength(n: nat) | BadBody | TooLarge(size: nat) | WriteFailed

  // ---- the length prefix ----

  /** binary.BigEndian.PutUint32 */
  function PutUint32(n: nat): (hdr: seq<byte>)
    requires n < 0x1_0000_0000
    ensures |hdr| == 4
  {
    [n / 0x100_0000, n / 0x1_0000 % 0x100, n / 0x100 % 0x100, n % 0x100]
  }

  /** binary.BigEndian.Uint32 */
  function Uint32(hdr: seq<byte>): (n: nat)
    requires |hdr| == 4
    ensures n < 0x1_0000_0000
  {
    ((hdr[0] as int * 0x100 + hdr[1] as int) * 0x100 + hdr[2] as int) * 0x100 + hdr[3] as int
  }

  /** The two codings are inverse to each other on every 32-bit length and every header. */
  lemma LengthsRoundTrip(n: nat, hdr: seq<byte>)
    requires n < 0x1_0000_0000 && |hdr| == 4
    ensures Uint32(PutUint32(n)) == n
    ensures PutUint32(Uint32(hdr)) == hdr
  {
    LengthReadsBack(n);
    HeaderReadsBack(hdr[0], hdr[1], hdr[2], hdr[3]);
  }

  lemma LengthReadsBack(n: nat)
    requires n < 0x1_0000_0000
    ensures Uint32(PutUint32(n)) == n
  {
    var x, y, z := n / 0x100, n / 0x1_0000, n / 0x100_0000;
    assert n == x * 0x100 + n % 0x100;
    assert x == y * 0x100 + x % 0x100;
    assert y == z * 0x100 + y % 0x100;
  }

  lemma HeaderReadsBack(a: byte, b: byte, c: byte, d: byte)
    ensures PutUint32(Uint32([a, b, c, d])) == [a, b, c, d]
  {
    var z: int := a;
    var y: int := z * 0x100 + b;
    var x: int := y * 0x100 + c;
    var n: int := x * 0x100 + d;
    assert Uint32([a, b, c, d]) == n;
    assert n / 0x100 == x && n % 0x100 == d;
    assert n / 0x1_0000 == y && x % 0x100 == c;
    assert n / 0x100_0000 == z && y % 0x100 == b;
  }

  // ---- one frame ----

  function FrameOf(body: seq<byte>): seq<byte>
    requires |body| <= MAX_FRAME
  {
    PutUint32(|body|) + body
  }

  /** ReadFrame: the outcome and the unread rest of the stream. */
  function Parse<E>(c: Codec<E>, s: seq<byte>): (r: (Result<E, FrameError>, seq<byte>))
    ensures r.0.Ok? ==> |r.1| < |s|
  {
    match Take(s, 4)
    case (Err(e), rest) => (Err(Io(e)), rest)
    case (Ok(hdr), rest) =>
      var n := Uint32(hdr);
      if n == 0 || n > MAX_FRAME then (Err(InvalidLength(n)), rest)
      else
        match Take(rest, n)
        case (Err(e), rest') => (Err(Io(e)), rest')
        case (Ok(body), rest') =>
          match c.unmarshal(body)
          case None => (Err(BadBody), rest')
          case Some(env) => (Ok(env), rest')
  }

  /** Which announced lengths are read: one byte to one mebibyte. Nothing behind a refused header is consumed. */
  lemma LengthDecides<E>(c: Codec<E>, n: nat, rest: seq<byte>)
    requires n < 0x1_0000_0000
    ensures var r := Parse(c, PutUint32(n) + rest);
            if n == 0 || n > 1_048_576 then r == (Err(InvalidLength(n)), rest)
            else if n <= |rest| then
              r == (match c.unmarshal(rest[..n]) case Some(env) => Ok(env) case None => Err(BadBody), rest[n..])
            else r == (Err(Io(if rest == [] then Eof else UnexpectedEof)), [])
  {
    var s := PutUint32(n) + rest;
    assert s[..4] == PutUint32(n) && s[4..] == rest;
    LengthReadsBack(n);
  }

  /** A connection that takes `room` more bytes before it fails. */
  class Writer {
    var written: seq<byte>
    var room: nat

    constructor (room: nat)
      ensures written == [] && this.room == room
    {
      written, this.room := [], room;
    }

    method Write(b: seq<byte>) returns (ok: bool)
      modifies this
      ensures ok <==> |b| <= old(room)
      ensures written == old(written) + (if ok then b else b[..old(room)])
      ensures room == if ok then old(room) - |b| else 0
    {
      ok := |b| <= room;
      if ok {
        written, room := written + b, room - |b|;
      } else {
        written, room := written + b[..room], 0;
      }
    }
  }

  /** Nothing is written when the body is too large; a connection that fails has taken a proper part of
      the frame. */
  method WriteFrame<E>(c: Codec<E>, w: Writer, env: E) returns (r: Result<(), FrameError>)
    modifies w
    ensures var body := c.marshal(env);
            if |body| > 1_048_576 then r == Err(TooLarge(|body|)) && w.written == old(w.written)
            else if |FrameOf(body)| <= old(w.room) then r == Ok(()) && w.written == old(w.written) + FrameOf(body)
            else r == Err(WriteFailed) && w.written == old(w.written) + FrameOf(body)[..old(w.room)]
  {
    var body := c.marshal(env);
    if |body| > MAX_FRAME {
      return Err(TooLarge(|body|));
    }
    var ok := w.Write(PutUint32(|body|));
    if ok {
      ok := w.Write(body);
    }
    r := if ok then Ok(()) else Err(WriteFailed);
  }

  /** However the stream is cut into chunks, only its bytes matter. */
  method ReadFrame<E>(c: Codec<E>, s: Reader) returns (r: Result<E, FrameError>)
    modifies s
    ensures (r, s.Pending()) == Parse(c, old(s.Pending()))
  {
    var hdr := new byte[4](_ => 0);
    var got := s.ReadFull(hdr, 4);
    if got.Err? {
      return Err(Io(got.error));
    }
    assert hdr[..] == hdr[..4];
    var n := Uint32(hdr[..]);
    if n == 0 || n > MAX_FRAME {
      return Err(InvalidLength(n));
    }
    var body := new byte[n](_ => 0);
    got := s.ReadFull(body, n);
    if got.Err? {
      return Err(Io(got.error));
    }
    assert body[..] == body[..n];
    var env := c.unmarshal(body[..]);
    r := if env.Some? then Ok(env.value) else Err(BadBody);
  }

  // ---- whole streams ----

  /** Read frames until one fails. */
  function ParseAll<E>(c: Codec<E>, s: seq<byte>): (seq<E>, FrameError)
    decreases |s|
  {
    match Parse(c, s)
    case (Err(e), _) => ([], e)
    case (Ok(env), rest) =>
      var (more, e) := ParseAll(c, rest);
      ([env] + more, e)
  }

  /** Envelopes WriteFrame can carry: bodies of one byte to one mebibyte that unmarshal again. */
  ghost predicate Carries<E>(c: Codec<E>, env: E) {
    1 <= |c.marshal(env)| <= 1_048_576 && c.unmarshal(c.marshal(env)) == Some(env)
  }

  ghost predicate AllCarried<E>(c: Codec<E>, es: seq<E>) {
    forall i | 0 <= i < |es| :: Carries(c, es[i])
  }

  ghost function Stream<E>(c: Codec<E>, es: seq<E>): seq<byte>
    requires AllCarried(c, es)
  {
    if es == [] then [] else FrameOf(c.marshal(es[0])) + Stream(c, es[1..])
  }

  lemma ParseOne<E>(c: Codec<E>, env: E, rest: seq<byte>)
    requires Carries(c, env)
    ensures Parse(c, FrameOf(c.marshal(env)) + rest) == (Ok(env), rest)
  {
    var body := c.marshal(env);
    var s := FrameOf(body) + rest;
    assert s[..4] == PutUint32(|body|) && s[4..] == body + rest;
    LengthsRoundTrip(|body|, s[..4]);
    assert (body + rest)[..|body|] == body && (body + rest)[|body|..] == rest;
  }

  /** A frame comes back unless its body is empty: WriteFrame sends it, ReadFrame refuses it. */
  lemma ReadsBackIffNonEmpty<E>(c: Codec<E>, env: E, rest: seq<byte>)
    requires |c.marshal(env)| <= MAX_FRAME && c.unmarshal(c.marshal(env)) == Some(env)
    ensures Parse(c, FrameOf(c.marshal(env)) + rest) == (Ok(env), rest) <==> c.marshal(env) != []
  {
    if c.marshal(env) == [] {
      var s := FrameOf([]) + rest;
      assert s[..4] == PutUint32(0);
      LengthsRoundTrip(0, s[..4]);
    } else {
      ParseOne(c, env, rest);
    }
  }

  /** What was written is read back, all of it and in order, and then the stream ends cleanly. */
  lemma {:induction false} StreamsRoundTrip<E>(c: Codec<E>, es: seq<E>)
    requires AllCarried(c, es)
    ensures ParseAll(c, Stream(c, es)) == (es, Io(Eof))
  {
    if es != [] {
      ParseOne(c, es[0], Stream(c, es[1..]));
      StreamsRoundTrip(c, es[1..]);
      assert [es[0]] + es[1..] == es;
    }
  }

  /** How many whole frames fit in the first k bytes. */
  ghost function Complete<E>(c: Codec<E>, es: seq<E>, k: nat): (m: nat)
    requires AllCarried(c, es)
    ensures m <= |es|
  {
    if es == [] || k < |FrameOf(c.marshal(es[0]))| then 0
    else 1 + Complete(c, es[1..], k - |FrameOf(c.marshal(es[0]))|)
  }

  /** The cut falls between two frames, or right behind a header. */
  ghost predicate CleanCut<E>(c: Codec<E>, es: seq<E>, k: nat)
    requires AllCarried(c, es)
  {
    if k == 0 || k == 4 then true
    else if es == [] || k < |FrameOf(c.marshal(es[0]))| then false
    else CleanCut(c, es[1..], k - |FrameOf(c.marshal(es[0]))|)
  }

  lemma ParseCut<E>(c: Codec<E>, env: E, s: seq<byte>, k: nat)
    requires Carries(c, env) && FrameOf(c.marshal(env)) <= s && k < |FrameOf(c.marshal(env))|
    ensures Parse(c, s[..k]).0 == Err(Io(if k == 0 || k == 4 then Eof else UnexpectedEof))
  {
    var body, cut := c.marshal(env), s[..k];
    if k >= 4 {
      assert cut[..4] == FrameOf(body)[..4] == PutUint32(|body|);
      LengthsRoundTrip(|body|, cut[..4]);
      assert |cut[4..]| == k - 4 < |body|;
    }
  }

  lemma ParseNothing<E>(c: Codec<E>)
    ensures ParseAll(c, []) == ([], Io(Eof))
  {
  }

  /** Cut off anywhere, a stream yields exactly its complete frames and then an error. The error is the
      one of a clean end exactly when the cut falls between frames, or between a header and its body. */
  lemma {:induction false} TruncationIsDetected<E>(c: Codec<E>, es: seq<E>, k: nat)
    requires AllCarried(c, es) && k <= |Stream(c, es)|
    ensures ParseAll(c, Stream(c, es)[..k])
            == (es[..Complete(c, es, k)], Io(if CleanCut(c, es, k) then Eof else UnexpectedEof))
    decreases |es|
  {
    hide Parse;
    var s := Stream(c, es);
    if es == [] {
      assert s[..k] == [];
      ParseNothing(c);
    } else {
      var f, rest := FrameOf(c.marshal(es[0])), Stream(c, es[1..]);
      if k < |f| {
        ParseCut(c, es[0], s, k);
      } else {
        assert s[..k] == f + rest[..k - |f|];
        ParseOne(c, es[0], rest[..k - |f|]);
        TruncationIsDetected(c, es[1..], k - |f|);
        assert es[..Complete(c, es, k)] == [es[0]] + es[1..][..Complete(c, es[1..], k - |f|)];
      }
    }
  }
}
