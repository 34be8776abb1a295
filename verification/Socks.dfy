/** The SOCKS5 handshake of the exit proxy (RFC 1928, sections 3 to 5), over
    one reused buffer. */
module Socks {
  import opened Wrappers
  import opened ByteStream

  const BUF := 262

  datatype Host = IPv4(ip4: seq<byte>) | Domain(name: seq<byte>) | IPv6(ip6: seq<byte>)

  datatype Target = Target(host: Host, port: nat)

  datatype Refusal =
    | Short(error: ReadError) | NotSocks5 | BadRequestVersion | UnsupportedCommand | UnsupportedAddressType

  /** The outcome, the unread input, and what was written back. */
  datatype Outcome = Outcome(result: Result<Target, Refusal>, rest: seq<byte>, replies: seq<byte>)

  const NO_AUTH: seq<byte> := [5, 0]
  const COMMAND_REFUSED: seq<byte> := [5, 7, 0, 1, 0, 0, 0, 0, 0, 0]

  // ---- the handshake on the stream as a whole ----

  function PortOf(b: seq<byte>): nat
    requires |b| == 2
  {
    b[0] as int * 0x100 + b[1] as int
  }

  function ReadPort(host: Host, s: seq<byte>): Outcome {
    match Take(s, 2)
    case (Err(e), rest) => Outcome(Err(Short(e)), rest, NO_AUTH)
    case (Ok(port), rest) => Outcome(Ok(Target(host, PortOf(port))), rest, NO_AUTH)
  }

  function ReadAddress(atyp: byte, s: seq<byte>): Outcome {
    if atyp == 1 then
      match Take(s, 4)
      case (Err(e), rest) => Outcome(Err(Short(e)), rest, NO_AUTH)
      case (Ok(ip), rest) => ReadPort(IPv4(ip), rest)
    else if atyp == 3 then
      match Take(s, 1)
      case (Err(e), rest) => Outcome(Err(Short(e)), rest, NO_AUTH)
      case (Ok(len), rest) =>
        match Take(rest, len[0])
        case (Err(e), rest') => Outcome(Err(Short(e)), rest', NO_AUTH)
        case (Ok(name), rest') => ReadPort(Domain(name), rest')
    else if atyp == 4 then
      match Take(s, 16)
      case (Err(e), rest) => Outcome(Err(Short(e)), rest, NO_AUTH)
      case (Ok(ip), rest) => ReadPort(IPv6(ip), rest)
    else
      Outcome(Err(UnsupportedAddressType), s, NO_AUTH)
  }

  function ReadRequest(s: seq<byte>): Outcome {
    match Take(s, 4)
    case (Err(e), rest) => Outcome(Err(Short(e)), rest, NO_AUTH)
    case (Ok(req), rest) =>
      if req[0] != 5 then Outcome(Err(BadRequestVersion), rest, NO_AUTH)
      else if req[1] != 1 then Outcome(Err(UnsupportedCommand), rest, NO_AUTH + COMMAND_REFUSED)
      else ReadAddress(req[3], rest)
  }

  function Handshake(s: seq<byte>): Outcome {
    match Take(s, 2)
    case (Err(e), rest) => Outcome(Err(Short(e)), rest, [])
    case (Ok(head), rest) =>
      if head[0] != 5 then Outcome(Err(NotSocks5), rest, [])
      else
        match Take(rest, head[1])
        case (Err(e), rest') => Outcome(Err(Short(e)), rest', [])
        case (Ok(_), rest') => ReadRequest(rest')
  }

  // ---- what a client sends ----

  /** Section 3: version, number of methods, methods. */
  function Greeting(methods: seq<byte>): seq<byte>
    requires |methods| <= 255
  {
    [5, |methods|] + methods
  }

  predicate WellFormed(t: Target) {
    && t.port < 0x1_0000
    && match t.host
       case IPv4(ip) => |ip| == 4
       case Domain(name) => |name| <= 255
       case IPv6(ip) => |ip| == 16
  }

  /** Sections 4 and 5: version, CONNECT, reserved, address type, address, port. */
  function Request(reserved: byte, t: Target): seq<byte>
    requires WellFormed(t)
  {
    [5, 1, reserved] + Address(t.host) + [t.port / 0x100, t.port % 0x100]
  }

  function Address(h: Host): seq<byte>
    requires WellFormed(Target(h, 0))
  {
    match h
    case IPv4(ip) => [1] + ip
    case Domain(name) => [3, |name|] + name
    case IPv6(ip) => [4] + ip
  }

  lemma TakeAppend(a: seq<byte>, b: seq<byte>)
    ensures Take(a + b, |a|) == (Ok(a), b)
  {
    assert (a + b)[..|a|] == a && (a + b)[|a|..] == b;
  }

  /** Every well-formed greeting and CONNECT request is understood: the target is the one encoded, the
      handshake's bytes are consumed and not one of the payload's. */
  lemma WellFormedIsAccepted(methods: seq<byte>, reserved: byte, t: Target, payload: seq<byte>)
    requires |methods| <= 255 && WellFormed(t)
    ensures Handshake(Greeting(methods) + Request(reserved, t) + payload) == Outcome(Ok(t), payload, NO_AUTH)
  {
    hide Handshake, ReadRequest, Greeting, Request;
    var request := Request(reserved, t) + payload;
    assert Greeting(methods) + Request(reserved, t) + payload == Greeting(methods) + request;
    MethodsAreIgnored(methods, request);
    RequestIsAccepted(reserved, t, payload);
  }

  lemma RequestIsAccepted(reserved: byte, t: Target, payload: seq<byte>)
    requires WellFormed(t)
    ensures ReadRequest(Request(reserved, t) + payload) == Outcome(Ok(t), payload, NO_AUTH)
  {
    hide ReadAddress, Address;
    var port: seq<byte> := [t.port / 0x100, t.port % 0x100];
    var address := Address(t.host);
    AddressIsRead(t, payload);
    var rest := address[1..] + port + payload;
    assert Request(reserved, t) + payload == [5, 1, reserved, address[0]] + rest by {
      assert address == [address[0]] + address[1..];
    }
    TakeAppend([5, 1, reserved, address[0]], rest);
  }

  lemma AddressIsRead(t: Target, payload: seq<byte>)
    requires WellFormed(t)
    ensures var address, port: seq<byte> := Address(t.host), [t.port / 0x100, t.port % 0x100];
            && address != [] && ReadAddress(address[0], address[1..] + port + payload)
                == Outcome(Ok(t), payload, NO_AUTH)
  {
    var port: seq<byte> := [t.port / 0x100, t.port % 0x100];
    TakeAppend(port, payload);
    var rest := Address(t.host)[1..] + port + payload;
    match t.host
    case IPv4(ip) =>
      assert rest == ip + (port + payload);
      TakeAppend(ip, port + payload);
    case Domain(name) =>
      assert rest == [|name|] + (name + (port + payload));
      TakeAppend([|name|], name + (port + payload));
      TakeAppend(name, port + payload);
    case IPv6(ip) =>
      assert rest == ip + (port + payload);
      TakeAppend(ip, port + payload);
  }

  lemma TakeSplits(s: seq<byte>, n: nat)
    requires Take(s, n).0.Ok?
    ensures s == Take(s, n).0.value + Take(s, n).1 && |Take(s, n).0.value| == n
  {
  }

  /** Nothing else is accepted: an accepted stream starts with a greeting and a request for that target. */
  lemma AcceptedIsWellFormed(s: seq<byte>)
    requires Handshake(s).result.Ok?
    ensures var o := Handshake(s);
            && WellFormed(o.result.value) && o.replies == NO_AUTH
            && exists methods: seq<byte>, reserved: byte ::
                 |methods| <= 255 && s == Greeting(methods) + Request(reserved, o.result.value) + o.rest
  {
    TakeSplits(s, 2);
    var (head, rest) := (Take(s, 2).0.value, Take(s, 2).1);
    TakeSplits(rest, head[1]);
    var (methods, request) := (Take(rest, head[1]).0.value, Take(rest, head[1]).1);
    assert head == [5, |methods|];
    AcceptedRequest(request);
    var reserved := request[2];
    var o := Handshake(s);
    assert s == Greeting(methods) + (Request(reserved, o.result.value) + o.rest);
    assert s == Greeting(methods) + Request(reserved, o.result.value) + o.rest;
  }

  lemma AcceptedRequest(s: seq<byte>)
    requires ReadRequest(s).result.Ok?
    ensures var o := ReadRequest(s);
            && WellFormed(o.result.value) && o.replies == NO_AUTH && |s| > 2
            && s == Request(s[2], o.result.value) + o.rest
  {
    hide ReadAddress, Address;
    TakeSplits(s, 4);
    var (req, rest) := (Take(s, 4).0.value, Take(s, 4).1);
    assert req == [5, 1, s[2], s[3]];
    AcceptedAddress(req[3], rest);
    var o := ReadRequest(s);
    assert s == [5, 1, s[2]] + ([s[3]] + rest);
  }

  lemma AcceptedAddress(atyp: byte, s: seq<byte>)
    requires ReadAddress(atyp, s).result.Ok?
    ensures var o := ReadAddress(atyp, s);
            var t := o.result.value;
            && WellFormed(t) && o.replies == NO_AUTH
            && [atyp] + s == Address(t.host) + ([t.port / 0x100, t.port % 0x100] + o.rest)
  {
    if atyp == 3 {
      TakeSplits(s, 1);
      var (len, more) := (Take(s, 1).0.value, Take(s, 1).1);
      TakeSplits(more, len[0]);
      var (name, rest) := (Take(more, len[0]).0.value, Take(more, len[0]).1);
      AcceptedPort(Domain(name), rest);
      assert [3] + s == [3, |name|] + (name + rest);
    } else {
      var n := if atyp == 1 then 4 else 16;
      TakeSplits(s, n);
      var (ip, rest) := (Take(s, n).0.value, Take(s, n).1);
      AcceptedPort(if atyp == 1 then IPv4(ip) else IPv6(ip), rest);
      assert [atyp] + s == [atyp] + (ip + rest);
    }
  }

  lemma AcceptedPort(h: Host, s: seq<byte>)
    requires ReadPort(h, s).result.Ok?
    ensures var o := ReadPort(h, s);
            && o.result.value.host == h && o.result.value.port < 0x1_0000 && o.replies == NO_AUTH
            && s == [o.result.value.port / 0x100, o.result.value.port % 0x100] + o.rest
  {
    TakeSplits(s, 2);
  }

  /** s starts with a well-formed CONNECT request. */
  ghost predicate StartsWithRequest(s: seq<byte>) {
    exists reserved: byte, t: Target, payload: seq<byte> :: WellFormed(t) && s == Request(reserved, t) + payload
  }

  lemma RequestAcceptedIff(s: seq<byte>)
    ensures ReadRequest(s).result.Ok? <==> StartsWithRequest(s)
  {
    if ReadRequest(s).result.Ok? {
      AcceptedRequest(s);
    }
    if reserved: byte, t: Target, payload: seq<byte> :| WellFormed(t) && s == Request(reserved, t) + payload {
      RequestIsAccepted(reserved, t, payload);
    }
  }

  /** The offered methods are never looked at: whatever they are, "no authentication" (0) among them or
      not, the client is accepted if and only if a well-formed request follows. */
  lemma MethodsAreIgnored(methods: seq<byte>, s: seq<byte>)
    requires |methods| <= 255
    ensures Handshake(Greeting(methods) + s) == ReadRequest(s)
    ensures Handshake(Greeting(methods) + s).result.Ok? <==> StartsWithRequest(s)
  {
    assert Greeting(methods) + s == [5, |methods|] + (methods + s);
    TakeAppend([5, |methods|], methods + s);
    TakeAppend(methods, s);
    RequestAcceptedIff(s);
  }

  /** A client that offers only username and password (2) is told to go on without. */
  lemma AcceptsWithoutNoAuth(reserved: byte, t: Target, payload: seq<byte>)
    requires WellFormed(t)
    ensures Handshake(Greeting([2]) + (Request(reserved, t) + payload)) == Outcome(Ok(t), payload, NO_AUTH)
  {
    MethodsAreIgnored([2], Request(reserved, t) + payload);
    RequestIsAccepted(reserved, t, payload);
  }

  /** Every other refusal, with what the client is told: only an unsupported command is answered, with code 7. */
  lemma RefusalsAreAnswered(s: seq<byte>, methods: seq<byte>, q: seq<byte>)
    requires |methods| <= 255
    ensures |s| >= 2 && s[0] != 5 ==> Handshake(s) == Outcome(Err(NotSocks5), s[2..], [])
    ensures |q| >= 4 ==>
              var o := Handshake(Greeting(methods) + q);
              if q[0] != 5 then o == Outcome(Err(BadRequestVersion), q[4..], [5, 0])
              else if q[1] != 1 then
                o == Outcome(Err(UnsupportedCommand), q[4..], [5, 0, 5, 7, 0, 1, 0, 0, 0, 0, 0, 0])
              else if q[3] != 1 && q[3] != 3 && q[3] != 4 then
                o == Outcome(Err(UnsupportedAddressType), q[4..], [5, 0])
              else (o.result.Ok? || o.result.error.Short?) && o.replies == [5, 0]
  {
    MethodsAreIgnored(methods, q);
  }

  // ---- the program ----

  /** socksHandshake: every read goes through the same buffer, so each part is copied out before the next read. */
  method SocksHandshake(c: Reader) returns (r: Result<Target, Refusal>, replies: seq<byte>)
    modifies c
    ensures Outcome(r, c.Pending(), replies) == Handshake(old(c.Pending()))
  {
    replies := [];
    var buf := new byte[BUF](_ => 0);
    var got := c.ReadFull(buf, 2);
    if got.Err? {
      return Err(Short(got.error)), replies;
    }
    assert buf[..2][0] == buf[0] && buf[..2][1] == buf[1];
    if buf[0] != 5 {
      return Err(NotSocks5), replies;
    }
    var n := buf[1];
    got := c.ReadFull(buf, n);
    if got.Err? {
      return Err(Short(got.error)), replies;
    }
    replies := NO_AUTH;
    r, replies := ReadRequestFrom(c, buf);
  }

  method ReadRequestFrom(c: Reader, buf: array<byte>) returns (r: Result<Target, Refusal>, replies: seq<byte>)
    requires buf.Length == BUF
    modifies c, buf
    ensures Outcome(r, c.Pending(), replies) == ReadRequest(old(c.Pending()))
  {
    replies := NO_AUTH;
    var got := c.ReadFull(buf, 4);
    if got.Err? {
      return Err(Short(got.error)), replies;
    }
    assert buf[..4][0] == buf[0] && buf[..4][1] == buf[1] && buf[..4][3] == buf[3];
    if buf[0] != 5 {
      return Err(BadRequestVersion), replies;
    }
    if buf[1] != 1 {
      replies := replies + COMMAND_REFUSED;
      return Err(UnsupportedCommand), replies;
    }
    var host;
    match buf[3] {
      case 1 =>
        got := c.ReadFull(buf, 4);
        if got.Err? {
          return Err(Short(got.error)), replies;
        }
        host := IPv4(buf[..4]);
      case 3 =>
        got := c.ReadFull(buf, 1);
        if got.Err? {
          return Err(Short(got.error)), replies;
        }
        assert buf[..1][0] == buf[0];
        var l := buf[0];
        got := c.ReadFull(buf, l);
        if got.Err? {
          return Err(Short(got.error)), replies;
        }
        host := Domain(buf[..l]);
      case 4 =>
        got := c.ReadFull(buf, 16);
        if got.Err? {
          return Err(Short(got.error)), replies;
        }
        host := IPv6(buf[..16]);
      case _ =>
        return Err(UnsupportedAddressType), replies;
    }
    got := c.ReadFull(buf, 2);
    if got.Err? {
      return Err(Short(got.error)), replies;
    }
    assert buf[..2][0] == buf[0] && buf[..2][1] == buf[1];
    r := Ok(Target(host, buf[0] as int * 0x100 + buf[1] as int));
  }
}
