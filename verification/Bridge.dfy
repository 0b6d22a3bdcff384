/** The frames between the network filter and the daemon: encoders, decoders, and streams of frames. */
module Bridge {
  import opened Permutations
  import opened Options
  import opened Bytes
  import opened ClientHello

  const PROTOCOL_VERSION: byte := 1
  const IPV6_LEN := 16
  const TOKEN_LEN := 32
  const REQUEST_HEADER_LEN := 53
  const RESPONSE_HEADER_LEN := 4
  const MAX_UINT16 := 65535

  datatype Request = Request(dstIP: bytes, dstPort: int, auditToken: bytes, clientHello: bytes)

  datatype Response = Response(verdict: byte, host: bytes, reason: bytes)

  datatype FrameError = BadIP | BadPort | TooLong | BadVersion | BadVerdict | Short

  // ---------------------------------------------------------------- addresses

  const V4_PREFIX: bytes := [0, 0, 0, 0, 0, 0, 0, 0, 0, 0, 255, 255]

  /** The 16-byte form of a 4- or 16-byte address. */
  function To16(ip: bytes): Option<bytes> {
    if |ip| == 4 then Some(V4_PREFIX + ip) else if |ip| == IPV6_LEN then Some(ip) else None
  }

  lemma To16Twice(ip: bytes)
    ensures To16(ip).Some? ==> |To16(ip).value| == IPV6_LEN && To16(To16(ip).value) == To16(ip)
  {
  }

  // ---------------------------------------------------------------- requests

  predicate Encodable(q: Request) {
    To16(q.dstIP).Some? && 0 <= q.dstPort <= MAX_UINT16 && |q.auditToken| == TOKEN_LEN && |q.clientHello| <= MAX_CLIENT_HELLO_BYTES
  }

  /** The request as the other side sees it: the address in its 16-byte form. */
  function Received(q: Request): Request
    requires Encodable(q)
  {
    q.(dstIP := To16(q.dstIP).value)
  }

  function RequestHeader(q: Request): (r: bytes)
    requires Encodable(q)
    ensures |r| == REQUEST_HEADER_LEN
  {
    [PROTOCOL_VERSION] + To16(q.dstIP).value + BigEndian(2, q.dstPort) + q.auditToken + BigEndian(2, |q.clientHello|)
  }

  function RequestFrame(q: Request): bytes
    requires Encodable(q)
  {
    RequestHeader(q) + q.clientHello
  }

  function DecodeRequest(p: bytes): Result<(Request, bytes), FrameError> {
    if |p| < REQUEST_HEADER_LEN then Err(Short)
    else if p[0] != PROTOCOL_VERSION then Err(BadVersion)
    else
      var n := Number(p[51..53]);
      if n > MAX_CLIENT_HELLO_BYTES then Err(TooLong)
      else if REQUEST_HEADER_LEN + n > |p| then Err(Short)
      else Ok((Request(p[1..17], Number(p[17..19]), p[19..51], p[53..53 + n]), p[53 + n..]))
  }

  lemma HeaderParts(q: Request, rest: bytes)
    requires Encodable(q)
    ensures var h := RequestHeader(q) + rest;
      && h[0] == PROTOCOL_VERSION && h[1..17] == To16(q.dstIP).value && h[17..19] == BigEndian(2, q.dstPort)
      && h[19..51] == q.auditToken && h[51..53] == BigEndian(2, |q.clientHello|) && h[53..] == rest
  {
  }

  /** Decoding what was encoded gives it back and leaves exactly what follows. */
  lemma RequestRoundTrip(q: Request, rest: bytes)
    requires Encodable(q)
    ensures DecodeRequest(RequestFrame(q) + rest) == Ok((Received(q), rest))
  {
    var tail := q.clientHello + rest;
    var p := RequestHeader(q) + tail;
    assert RequestFrame(q) + rest == p;
    HeaderParts(q, tail);
    Powers();
    NumberOfBigEndian(2, q.dstPort);
    NumberOfBigEndian(2, |q.clientHello|);
    var n := |q.clientHello|;
    assert p[53..53 + n] == p[53..][..n] == q.clientHello;
    assert p[53 + n..] == p[53..][n..] == rest;
  }

  /** What decodes was encoded: the bytes read are the frame of the request they give. */
  lemma RequestIsCanonical(p: bytes)
    requires DecodeRequest(p).Ok?
    ensures var (q, rest) := DecodeRequest(p).value; Encodable(q) && Received(q) == q && p == RequestFrame(q) + rest
  {
    var (q, rest) := DecodeRequest(p).value;
    Powers();
    BigEndianOfNumber(p[17..19]);
    BigEndianOfNumber(p[51..53]);
    assert RequestHeader(q) == p[..53];
    SplitAt(p, 53);
    SplitAt(p[53..], |q.clientHello|);
    assert p[53..][..|q.clientHello|] == q.clientHello && p[53..][|q.clientHello|..] == rest;
  }

  /** No strict prefix of a frame passes for a frame. */
  lemma RequestPrefixShort(q: Request, n: nat)
    requires Encodable(q) && n < |RequestFrame(q)|
    ensures DecodeRequest(RequestFrame(q)[..n]) == Err(Short)
  {
    var p := RequestFrame(q)[..n];
    if n >= 53 {
      HeaderParts(q, q.clientHello);
      assert p[51..53] == RequestFrame(q)[51..53];
      Powers();
      NumberOfBigEndian(2, |q.clientHello|);
    }
  }

  function Requests(qs: seq<Request>): bytes
    requires forall i :: 0 <= i < |qs| ==> Encodable(qs[i])
  {
    if qs == [] then [] else RequestFrame(qs[0]) + Requests(qs[1..])
  }

  /** Read frames until nothing is left. */
  function DecodeRequests(p: bytes): Result<seq<Request>, FrameError>
    decreases |p|
  {
    if p == [] then Ok([])
    else match DecodeRequest(p)
      case Err(e) => Err(e)
      case Ok((q, rest)) =>
        match DecodeRequests(rest)
        case Err(e) => Err(e)
        case Ok(qs) => Ok([q] + qs)
  }

  /** A stream of frames decodes to exactly its requests, in order, with every byte consumed. */
  lemma {:induction false} RequestStream(qs: seq<Request>)
    requires forall i :: 0 <= i < |qs| ==> Encodable(qs[i])
    ensures var r := DecodeRequests(Requests(qs));
      r.Ok? && |r.value| == |qs| && forall i :: 0 <= i < |qs| ==> r.value[i] == Received(qs[i])
  {
    if qs != [] {
      RequestStream(qs[1..]);
      RequestRoundTrip(qs[0], Requests(qs[1..]));
      assert Requests(qs) != [];
    }
  }

  /** A byte stream is accepted only as the frames of what it decodes to. */
  lemma {:induction false} RequestStreamIsFrames(p: bytes)
    requires DecodeRequests(p).Ok?
    ensures var qs := DecodeRequests(p).value; (forall i :: 0 <= i < |qs| ==> Encodable(qs[i])) && Requests(qs) == p
    decreases |p|
  {
    if p != [] {
      var (q, rest) := DecodeRequest(p).value;
      RequestIsCanonical(p);
      RequestStreamIsFrames(rest);
      var qs := DecodeRequests(rest).value;
      assert ([q] + qs)[1..] == qs;
    }
  }

  // ---------------------------------------------------------------- responses

  predicate ValidVerdict(v: byte) { v == 0 || v == 1 }

  predicate Answerable(a: Response) { ValidVerdict(a.verdict) && |a.host| <= MAX_UINT16 && |a.reason| <= MAX_UINT16 }

  function ResponseFrame(a: Response): bytes { [PROTOCOL_VERSION, a.verdict] + (Vec(2, a.host) + Vec(2, a.reason)) }

  function DecodeResponse(p: bytes): Result<(Response, bytes), FrameError> {
    if |p| < RESPONSE_HEADER_LEN then Err(Short)
    else if p[0] != PROTOCOL_VERSION then Err(BadVersion)
    else if !ValidVerdict(p[1]) then Err(BadVerdict)
    else match Take(2, p[2..])
      case None => Err(Short)
      case Some((host, more)) =>
        match Take(2, more)
        case None => Err(Short)
        case Some((reason, rest)) => Ok((Response(p[1], host, reason), rest))
  }

  lemma ResponseRoundTrip(a: Response, rest: bytes)
    requires Answerable(a)
    ensures DecodeResponse(ResponseFrame(a) + rest) == Ok((a, rest))
  {
    Powers();
    var p := ResponseFrame(a) + rest;
    PushIn([PROTOCOL_VERSION, a.verdict], Vec(2, a.host), Vec(2, a.reason), rest);
    SplitBack([PROTOCOL_VERSION, a.verdict], Vec(2, a.host) + (Vec(2, a.reason) + rest));
    TakeVec(2, a.host, Vec(2, a.reason) + rest);
    TakeVec(2, a.reason, rest);
  }

  lemma ResponseIsCanonical(p: bytes)
    requires DecodeResponse(p).Ok?
    ensures var (a, rest) := DecodeResponse(p).value; Answerable(a) && p == ResponseFrame(a) + rest
  {
    var (a, rest) := DecodeResponse(p).value;
    var (host, more) := Take(2, p[2..]).value;
    Powers();
    VecTake(2, p[2..]);
    VecTake(2, more);
    SplitAt(p, 2);
    assert p[..2] == [PROTOCOL_VERSION, a.verdict];
    PushIn([PROTOCOL_VERSION, a.verdict], Vec(2, a.host), Vec(2, a.reason), rest);
  }

  /** Reading a frame is not disturbed by what comes after it. */
  lemma ResponseExtends(p: bytes, more: bytes)
    ensures DecodeResponse(p).Ok? ==>
      DecodeResponse(p + more) == Ok((DecodeResponse(p).value.0, DecodeResponse(p).value.1 + more))
  {
    if DecodeResponse(p).Ok? {
      ResponseIsCanonical(p);
      var (a, rest) := DecodeResponse(p).value;
      Associative(ResponseFrame(a), rest, more);
      ResponseRoundTrip(a, rest + more);
    }
  }

  lemma ResponsePrefixShort(a: Response, n: nat)
    requires Answerable(a) && n < |ResponseFrame(a)|
    ensures DecodeResponse(ResponseFrame(a)[..n]) == Err(Short)
  {
    var f := ResponseFrame(a);
    ResponseExtends(f[..n], f[n..]);
    SplitAt(f, n);
    ResponseRoundTrip(a, []);
    assert f + [] == f;
    assert DecodeResponse(f[..n]).Err?;
  }

  function Responses(xs: seq<Response>): bytes { if xs == [] then [] else ResponseFrame(xs[0]) + Responses(xs[1..]) }

  function DecodeResponses(p: bytes): Result<seq<Response>, FrameError>
    decreases |p|
  {
    if p == [] then Ok([])
    else match DecodeResponse(p)
      case Err(e) => Err(e)
      case Ok((a, rest)) =>
        match DecodeResponses(rest)
        case Err(e) => Err(e)
        case Ok(xs) => Ok([a] + xs)
  }

  lemma ResponseThenMore(xs: seq<Response>, more: bytes)
    requires xs != [] && Answerable(xs[0]) && DecodeResponses(more) == Ok(xs[1..])
    ensures DecodeResponses(ResponseFrame(xs[0]) + more) == Ok(xs)
  {
    ResponseRoundTrip(xs[0], more);
    assert |ResponseFrame(xs[0])| >= 2;
    assert xs == [xs[0]] + xs[1..];
  }

  lemma {:induction false} ResponseStream(xs: seq<Response>)
    requires forall i :: 0 <= i < |xs| ==> Answerable(xs[i])
    ensures DecodeResponses(Responses(xs)) == Ok(xs)
  {
    if xs != [] {
      var more := Responses(xs[1..]);
      ResponseStream(xs[1..]);
      ResponseThenMore(xs, more);
      assert Responses(xs) == ResponseFrame(xs[0]) + more;
    }
  }

  // ---------------------------------------------------------------- byte by byte

  /** A 4-byte address arrives as the sixteen bytes of its mapped form, and a 16-byte one as it is. */
  lemma AddressArrives(q: Request, rest: bytes)
    requires Encodable(q)
    ensures DecodeRequest(RequestFrame(q) + rest).Ok?
    ensures var ip := DecodeRequest(RequestFrame(q) + rest).value.0.dstIP;
      && |ip| == 16
      && (|q.dstIP| == 16 ==> ip == q.dstIP)
      && (|q.dstIP| == 4 ==> (forall i :: 0 <= i < 10 ==> ip[i] == 0) && ip[10] == 255 && ip[11] == 255 && ip[12..] == q.dstIP)
  {
    RequestRoundTrip(q, rest);
  }

  /** What is wrong with bytes that decode to nothing, the first thing found. */
  lemma RefusedFor(p: bytes)
    ensures |p| < 53 ==> DecodeRequest(p) == Err(Short)
    ensures |p| >= 53 && p[0] != 1 ==> DecodeRequest(p) == Err(BadVersion)
    ensures |p| >= 53 && p[0] == 1 && Number(p[51..53]) > 16384 ==> DecodeRequest(p) == Err(TooLong)
    ensures |p| < 4 ==> DecodeResponse(p) == Err(Short)
    ensures |p| >= 4 && p[0] != 1 ==> DecodeResponse(p) == Err(BadVersion)
    ensures |p| >= 4 && p[0] == 1 && p[1] !in {0, 1} ==> DecodeResponse(p) == Err(BadVerdict)
  {
  }

  /** Where each field of a request lies: version, address, port, token, length, hello. */
  lemma RequestLayout(q: Request)
    requires Encodable(q)
    ensures var f := RequestFrame(q);
      && |f| == 53 + |q.clientHello|
      && f[0] == 1 && f[1..17] == Received(q).dstIP
      && f[17] == q.dstPort / 256 && f[18] == q.dstPort % 256
      && f[19..51] == q.auditToken
      && f[51] == |q.clientHello| / 256 && f[52] == |q.clientHello| % 256
      && f[53..] == q.clientHello
  {
    var h := RequestHeader(q);
    TwoBytes(q.dstPort);
    TwoBytes(|q.clientHello|);
    assert h == [PROTOCOL_VERSION] + Received(q).dstIP + [q.dstPort / 256, q.dstPort % 256] + q.auditToken
                + [|q.clientHello| / 256, |q.clientHello| % 256];
    assert h[1..17] == Received(q).dstIP && h[19..51] == q.auditToken;
    var f := h + q.clientHello;
    assert f[1..17] == h[1..17] && f[19..51] == h[19..51];
  }

  /** And of a response: version, verdict, then host and reason, each after its length. */
  lemma ResponseLayout(a: Response)
    requires Answerable(a)
    ensures var f, n := ResponseFrame(a), |a.host|;
      && |f| == 6 + n + |a.reason|
      && f[0] == 1 && f[1] == a.verdict && a.verdict in {0, 1}
      && f[2] == n / 256 && f[3] == n % 256 && f[4..4 + n] == a.host
      && f[4 + n] == |a.reason| / 256 && f[5 + n] == |a.reason| % 256 && f[6 + n..] == a.reason
  {
    TwoBytes(|a.host|);
    TwoBytes(|a.reason|);
  }

  // ---------------------------------------------------------------- the streams

  class Writer {
    var sent: bytes

    constructor ()
      ensures sent == []
    {
      sent := [];
    }

    method WriteAll(data: bytes)
      modifies this
      ensures sent == old(sent) + data
    {
      sent := sent + data;
    }
  }

  class Reader {
    var left: bytes

    constructor (data: bytes)
      ensures left == data
    {
      left := data;
    }

    /** io.ReadFull: all n bytes, or an error that has used up what there was. */
    method ReadFull(n: nat) returns (r: Option<bytes>)
      modifies this
      ensures n <= |old(left)| ==> r == Some(old(left)[..n]) && left == old(left)[n..]
      ensures n > |old(left)| ==> r == None && left == []
    {
      if n > |left| {
        left := [];
        return None;
      }
      r := Some(left[..n]);
      left := left[n..];
    }
  }

  method PutUint16(header: array<byte>, at: nat, n: nat)
    requires at + 2 <= header.Length && n <= MAX_UINT16
    modifies header
    ensures header[..] == old(header[..at]) + BigEndian(2, n) + old(header[at + 2..])
  {
    assert BigEndian(2, n) == BigEndian(1, n / 256) + [n % 256];
    assert BigEndian(1, n / 256) == BigEndian(0, n / 256 / 256) + [n / 256 % 256];
    header[at], header[at + 1] := n / 256, n % 256;
  }

  method Copy(header: array<byte>, at: nat, data: bytes)
    requires at + |data| <= header.Length
    modifies header
    ensures header[..] == old(header[..at]) + data + old(header[at + |data|..])
  {
    for i := 0 to |data|
      invariant header[..] == old(header[..at]) + data[..i] + old(header[at + i..])
    {
      header[at + i] := data[i];
    }
  }

  method EncodeRequest(w: Writer, q: Request) returns (r: Result<(), FrameError>)
    requires |q.auditToken| == TOKEN_LEN
    modifies w
    ensures r.Ok? <==> Encodable(q)
    ensures w.sent == if Encodable(q) then old(w.sent) + RequestFrame(q) else old(w.sent)
  {
    var dstIP := To16(q.dstIP);
    if dstIP.None? { return Err(BadIP); }
    if q.dstPort < 0 || q.dstPort > MAX_UINT16 { return Err(BadPort); }
    if |q.clientHello| > MAX_CLIENT_HELLO_BYTES { return Err(TooLong); }
    var header := FillHeader(q, dstIP.value);
    w.WriteAll(header[..]);
    w.WriteAll(q.clientHello);
    Associative(old(w.sent), RequestHeader(q), q.clientHello);
    return Ok(());
  }

  /** Fill the fixed header in place, field by field. */
  method FillHeader(q: Request, dstIP: bytes) returns (header: array<byte>)
    requires Encodable(q) && To16(q.dstIP) == Some(dstIP)
    ensures fresh(header) && header[..] == RequestHeader(q)
  {
    header := new byte[REQUEST_HEADER_LEN](_ => 0);
    header[0] := PROTOCOL_VERSION;
    Copy(header, 1, dstIP);
    PutUint16(header, 17, q.dstPort);
    Copy(header, 19, q.auditToken);
    PutUint16(header, 51, |q.clientHello|);
  }

  method ReadRequest(r: Reader) returns (q: Result<Request, FrameError>)
    modifies r
    ensures q.Ok? <==> DecodeRequest(old(r.left)).Ok?
    ensures q.Ok? ==> (q.value, r.left) == DecodeRequest(old(r.left)).value
    ensures q.Err? ==> q.error == DecodeRequest(old(r.left)).error
  {
    ghost var p := r.left;
    var got := r.ReadFull(REQUEST_HEADER_LEN);
    if got.None? { return Err(Short); }
    var header := got.value;
    if header[0] != PROTOCOL_VERSION { return Err(BadVersion); }
    assert header[51..53] == p[51..53] && header[17..19] == p[17..19] && header[1..17] == p[1..17] && header[19..51] == p[19..51];
    var n := Number(header[51..53]);
    if n > MAX_CLIENT_HELLO_BYTES { return Err(TooLong); }
    var hello := r.ReadFull(n);
    if hello.None? { return Err(Short); }
    assert p[53..][..n] == p[53..53 + n] && p[53..][n..] == p[53 + n..];
    return Ok(Request(header[1..17], Number(header[17..19]), header[19..51], hello.value));
  }

  method EncodeResponse(w: Writer, a: Response) returns (r: Result<(), FrameError>)
    modifies w
    ensures r.Ok? <==> Answerable(a)
    ensures w.sent == if Answerable(a) then old(w.sent) + ResponseFrame(a) else old(w.sent)
  {
    if !ValidVerdict(a.verdict) { return Err(BadVerdict); }
    if |a.host| > MAX_UINT16 { return Err(TooLong); }
    if |a.reason| > MAX_UINT16 { return Err(TooLong); }
    w.WriteAll([PROTOCOL_VERSION, a.verdict] + BigEndian(2, |a.host|));
    w.WriteAll(a.host);
    w.WriteAll(BigEndian(2, |a.reason|));
    w.WriteAll(a.reason);
    assert w.sent == old(w.sent) + ResponseFrame(a);
    return Ok(());
  }

  method ReadResponse(r: Reader) returns (a: Result<Response, FrameError>)
    modifies r
    ensures a.Ok? <==> DecodeResponse(old(r.left)).Ok?
    ensures a.Ok? ==> (a.value, r.left) == DecodeResponse(old(r.left)).value
    ensures a.Err? ==> a.error == DecodeResponse(old(r.left)).error
  {
    ghost var p := r.left;
    var got := r.ReadFull(RESPONSE_HEADER_LEN);
    if got.None? { return Err(Short); }
    var header := got.value;
    if header[0] != PROTOCOL_VERSION { return Err(BadVersion); }
    if !ValidVerdict(header[1]) { return Err(BadVerdict); }
    assert p[2..][..2] == header[2..4] && p[2..][2..] == r.left;
    TakeParts(2, p[2..]);
    var host := r.ReadFull(Number(header[2..4]));
    if host.None? { return Err(Short); }
    assert Take(2, p[2..]) == Some((host.value, r.left));
    ghost var rest := r.left;
    var reasonLen := r.ReadFull(2);
    if reasonLen.None? { return Err(Short); }
    TakeParts(2, rest);
    var reason := r.ReadFull(Number(reasonLen.value));
    if reason.None? { return Err(Short); }
    assert Take(2, rest) == Some((reason.value, r.left));
    return Ok(Response(header[1], host.value, reason.value));
  }
}
