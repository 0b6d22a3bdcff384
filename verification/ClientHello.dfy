/**
 * Finding the server name in a TLS ClientHello (section 7.4.1.2 of RFC 5246, section 3 of RFC 6066), against a
 * general serializer of such messages.
 */
module ClientHello {
  import opened Permutations
  import opened Options
  import opened Bytes

  const MAX_CLIENT_HELLO_BYTES := 16384

  datatype ParseError = NotTLS | Truncated | Oversize | NoSNI

  type Parsed = Result<bytes, ParseError>

  // ---------------------------------------------------------------- what a hello looks like

  /** An extension, or an entry of a server name list, and its type. */
  datatype Tagged = Tagged(kind: nat, data: bytes)

  /**
   * A handshake record holding a ClientHello that names its server: everything the format leaves open is a field,
   * down to the unread bytes after each length-prefixed part.
   */
  datatype Hello = Hello(
    recordVersion: bytes,
    head: bytes,
    sessionId: bytes,
    cipherSuites: bytes,
    compressions: bytes,
    before: seq<Tagged>,
    others: seq<Tagged>,
    name: bytes,
    afterName: bytes,
    afterList: bytes,
    afterSni: bytes,
    afterExtensions: bytes,
    afterHello: bytes)

  function EncodeTagged(w: nat, items: seq<Tagged>): bytes {
    if items == [] then [] else BigEndian(w, items[0].kind) + (Vec(2, items[0].data) + EncodeTagged(w, items[1..]))
  }

  function NameList(h: Hello): bytes { EncodeTagged(1, h.others) + ([0] + (Vec(2, h.name) + h.afterName)) }

  function SniData(h: Hello): bytes { Vec(2, NameList(h)) + h.afterList }

  function Extensions(h: Hello): bytes { EncodeTagged(2, h.before) + ([0, 0] + (Vec(2, SniData(h)) + h.afterSni)) }

  function Body(h: Hello): bytes {
    h.head + (Vec(1, h.sessionId) + (Vec(2, h.cipherSuites) + (Vec(1, h.compressions) + (Vec(2, Extensions(h)) + h.afterExtensions))))
  }

  function WrapBody(body: bytes, after: bytes): bytes { [1] + (Vec(3, body) + after) }

  function Handshake(h: Hello): bytes { WrapBody(Body(h), h.afterHello) }

  function Encode(h: Hello): bytes { [22] + (h.recordVersion + Vec(2, Handshake(h))) }

  /** No item is the one looked for, and every length fits its field. */
  predicate SkippedItems(w: nat, items: seq<Tagged>) {
    forall i :: 0 <= i < |items| ==> 0 < items[i].kind < Pow256(w) && |items[i].data| < Pow256(2)
  }

  predicate ExtensionsFit(h: Hello) {
    && SkippedItems(2, h.before) && SkippedItems(1, h.others)
    && |h.name| < Pow256(2) && |NameList(h)| < Pow256(2) && |SniData(h)| < Pow256(2) && |Extensions(h)| < Pow256(2)
  }

  predicate WellFormed(h: Hello) {
    && |h.recordVersion| == 2 && |h.head| == 34
    && |h.sessionId| < Pow256(1) && |h.cipherSuites| < Pow256(2) && |h.compressions| < Pow256(1)
    && ExtensionsFit(h) && |Body(h)| < Pow256(3) && |Handshake(h)| < Pow256(2)
  }

  // ---------------------------------------------------------------- the parser as a function

  /** Skip items until one of type 0; the type and length take w + 2 bytes. */
  function FindZero(w: nat, p: bytes): Parsed
    decreases |p|
  {
    if |p| < w + 2 then Err(NoSNI)
    else
      var item := Take(2, p[w..]);
      if item.None? then Err(Truncated)
      else if Number(p[..w]) == 0 then Ok(item.value.0)
      else FindZero(w, item.value.1)
  }

  function ParseSniData(data: bytes): Parsed {
    match Take(2, data)
    case None => Err(Truncated)
    case Some((list, _)) => FindZero(1, list)
  }

  function ParseExtensions(p: bytes): Parsed {
    if |p| < 2 then Err(NoSNI)
    else match Take(2, p)
      case None => Err(Truncated)
      case Some((exts, _)) =>
        match FindZero(2, exts)
        case Err(e) => Err(e)
        case Ok(data) => ParseSniData(data)
  }

  /** Step over a length-prefixed part and go on with the rest. */
  function Skip(w: nat, p: Result<bytes, ParseError>): Result<bytes, ParseError> {
    match p
    case Err(e) => Err(e)
    case Ok(q) => if Take(w, q).Some? then Ok(Take(w, q).value.1) else Err(Truncated)
  }

  function ParseBody(body: bytes): Parsed {
    if |body| < 35 then Err(Truncated)
    else match Skip(1, Skip(2, Skip(1, Ok(body[34..]))))
      case Err(e) => Err(e)
      case Ok(rest) => ParseExtensions(rest)
  }

  function ParseHandshake(hs: bytes): Parsed {
    if |hs| < 4 || hs[0] != 1 then Err(NotTLS)
    else match Take(3, hs[1..])
      case None => Err(Truncated)
      case Some((body, _)) => ParseBody(body)
  }

  function Parse(b: bytes): Parsed {
    if |b| > MAX_CLIENT_HELLO_BYTES then Err(Oversize)
    else if |b| < 5 then Err(Truncated)
    else if b[0] != 22 then Err(NotTLS)
    else match Take(2, b[3..])
      case None => Err(Truncated)
      case Some((hs, _)) => ParseHandshake(hs)
  }

  // ---------------------------------------------------------------- byte by byte

  /** The record and handshake headers of a hello: their types, their lengths and what follows them. */
  lemma HelloLayout(h: Hello)
    requires WellFormed(h)
    ensures var n, m := |Handshake(h)|, |Body(h)|;
      && Encode(h) == [22] + (h.recordVersion + ([n / 256, n % 256] + Handshake(h)))
      && Handshake(h) == [1] + ([m / 65536, m / 256 % 256, m % 256] + Body(h) + h.afterHello)
  {
    Powers();
    TwoBytes(|Handshake(h)|);
    ThreeBytes(|Body(h)|);
  }

  /** The body: version and random, then session, ciphers, compressions and extensions, each after its length. */
  lemma BodyLayout(h: Hello)
    requires WellFormed(h)
    ensures var c, x := |h.cipherSuites|, |Extensions(h)|;
      |h.head| == 34 && Body(h) == h.head + ([|h.sessionId|] + h.sessionId + ([c / 256, c % 256] + h.cipherSuites
        + ([|h.compressions|] + h.compressions + ([x / 256, x % 256] + Extensions(h) + h.afterExtensions))))
  {
    Powers();
    OneByte(|h.sessionId|);
    OneByte(|h.compressions|);
    TwoBytes(|h.cipherSuites|);
    TwoBytes(|Extensions(h)|);
    var x := [|Extensions(h)| / 256, |Extensions(h)| % 256] + Extensions(h);
    var e := x + h.afterExtensions;
    var m := Vec(1, h.compressions) + e;
    assert Vec(2, Extensions(h)) == x;
    assert Vec(2, h.cipherSuites) + m == [|h.cipherSuites| / 256, |h.cipherSuites| % 256] + h.cipherSuites + m;
  }

  /** The name is the first item of type 0 in the first extension of type 0; both lists may hold others before. */
  lemma NameLayout(h: Hello)
    requires WellFormed(h)
    ensures var n, l, d := |h.name|, |NameList(h)|, |SniData(h)|;
      && NameList(h) == EncodeTagged(1, h.others) + ([0] + ([n / 256, n % 256] + h.name + h.afterName))
      && SniData(h) == [l / 256, l % 256] + NameList(h) + h.afterList
      && Extensions(h) == EncodeTagged(2, h.before) + ([0, 0] + ([d / 256, d % 256] + SniData(h) + h.afterSni))
  {
    Powers();
    VecTwo(h.name);
    VecTwo(NameList(h));
    VecTwo(SniData(h));
  }

  lemma VecTwo(s: bytes)
    requires |s| < 65536
    ensures Vec(2, s) == [|s| / 256, |s| % 256] + s
  {
    TwoBytes(|s|);
  }

  /** Extensions announced but missing are a truncation; none announced, or none at all, is no name. */
  lemma BareExtensions(p: bytes)
    requires |p| <= 2
    ensures ParseExtensions(p) == Err(if |p| == 2 && p != [0, 0] then Truncated else NoSNI)
  {
    if |p| == 2 {
      assert p[..2] == p && Number(p[..1]) == p[0] as nat && p[..2][..1] == p[..1];
      if p == [0, 0] { assert p[2..2] == []; }
    }
  }

  // ---------------------------------------------------------------- parsing inverts encoding

  lemma {:induction false} FindEncoded(w: nat, items: seq<Tagged>, data: bytes, rest: bytes)
    requires SkippedItems(w, items) && |data| < Pow256(2)
    ensures FindZero(w, EncodeTagged(w, items) + (BigEndian(w, 0) + (Vec(2, data) + rest))) == Ok(data)
    decreases |items|
  {
    var tail := BigEndian(w, 0) + (Vec(2, data) + rest);
    if items == [] {
      assert EncodeTagged(w, items) + tail == tail;
      FoundHere(w, 0, data, rest);
    } else {
      FindEncoded(w, items[1..], data, rest);
      PushIn(BigEndian(w, items[0].kind), Vec(2, items[0].data), EncodeTagged(w, items[1..]), tail);
      FoundHere(w, items[0].kind, items[0].data, EncodeTagged(w, items[1..]) + tail);
    }
  }

  /** One item: found if its type is 0, else stepped over. */
  lemma FoundHere(w: nat, kind: nat, data: bytes, rest: bytes)
    requires kind < Pow256(w) && |data| < Pow256(2)
    ensures FindZero(w, BigEndian(w, kind) + (Vec(2, data) + rest)) == if kind == 0 then Ok(data) else FindZero(w, rest)
  {
    var k, v := BigEndian(w, kind), Vec(2, data) + rest;
    NumberOfBigEndian(w, kind);
    SplitBack(k, v);
    TakeVec(2, data, rest);
  }

  lemma ExtensionsParse(h: Hello)
    requires WellFormed(h)
    ensures ParseExtensions(Vec(2, Extensions(h)) + h.afterExtensions) == Ok(h.name)
  {
    TakeVec(2, Extensions(h), h.afterExtensions);
    ZeroBytes();
    FindEncoded(2, h.before, SniData(h), h.afterSni);
    TakeVec(2, NameList(h), h.afterList);
    FindEncoded(1, h.others, h.name, h.afterName);
  }

  lemma ZeroBytes()
    ensures BigEndian(1, 0) == [0] && BigEndian(2, 0) == [0, 0]
  {
    assert BigEndian(0, 0) == [];
    assert BigEndian(1, 0) == [0];
  }

  lemma BodyParses(h: Hello)
    requires WellFormed(h)
    ensures ParseBody(Body(h)) == Ok(h.name)
  {
    var p3 := Vec(2, Extensions(h)) + h.afterExtensions;
    var p2 := Vec(1, h.compressions) + p3;
    var p1 := Vec(2, h.cipherSuites) + p2;
    var p0 := Vec(1, h.sessionId) + p1;
    assert Body(h)[34..] == p0;
    TakeVec(1, h.sessionId, p1);
    TakeVec(2, h.cipherSuites, p2);
    TakeVec(1, h.compressions, p3);
    ExtensionsParse(h);
  }

  /** Every hello that fits is understood, whatever its other fields hold and whatever follows its record. */
  lemma HelloParses(h: Hello, trailing: bytes)
    requires WellFormed(h) && |Encode(h) + trailing| <= MAX_CLIENT_HELLO_BYTES
    ensures Parse(Encode(h) + trailing) == Ok(h.name)
  {
    HandshakeParses(h);
    RecordParses(h.recordVersion, Handshake(h), trailing);
    PushIn([22], h.recordVersion, Vec(2, Handshake(h)), trailing);
  }

  lemma HandshakeParses(h: Hello)
    requires WellFormed(h)
    ensures ParseHandshake(Handshake(h)) == Ok(h.name)
  {
    var v := Vec(3, Body(h)) + h.afterHello;
    TakeVec(3, Body(h), h.afterHello);
    assert Handshake(h)[1..] == v;
    BodyParses(h);
  }

  lemma RecordParses(version: bytes, hs: bytes, rest: bytes)
    requires |version| == 2 && |hs| < Pow256(2)
    ensures var b := [22] + (version + (Vec(2, hs) + rest)); |b| <= MAX_CLIENT_HELLO_BYTES ==> Parse(b) == ParseHandshake(hs)
  {
    var v := Vec(2, hs) + rest;
    var b := [22] + (version + v);
    TakeVec(2, hs, rest);
    assert b[3..] == v;
  }

  // ---------------------------------------------------------------- only hellos parse

  lemma {:induction false} FoundWasEncoded(w: nat, p: bytes) returns (items: seq<Tagged>, rest: bytes)
    requires FindZero(w, p).Ok?
    ensures SkippedItems(w, items) && |FindZero(w, p).value| < Pow256(2)
    ensures p == EncodeTagged(w, items) + (BigEndian(w, 0) + (Vec(2, FindZero(w, p).value) + rest))
    decreases |p|
  {
    var (data, more) := Take(2, p[w..]).value;
    VecTake(2, p[w..]);
    BigEndianOfNumber(p[..w]);
    var first := Tagged(Number(p[..w]), data);
    SplitAt(p, w);
    assert p == BigEndian(w, first.kind) + (Vec(2, data) + more);
    if first.kind == 0 {
      items, rest := [], more;
      assert EncodeTagged(w, items) + p == p;
    } else {
      var later;
      later, rest := FoundWasEncoded(w, more);
      items := [first] + later;
      EncodeCons(w, first, later, BigEndian(w, 0) + (Vec(2, FindZero(w, p).value) + rest));
    }
  }

  lemma EncodeCons(w: nat, first: Tagged, later: seq<Tagged>, tail: bytes)
    ensures EncodeTagged(w, [first] + later) + tail
      == BigEndian(w, first.kind) + (Vec(2, first.data) + (EncodeTagged(w, later) + tail))
  {
    assert ([first] + later)[1..] == later;
    PushIn(BigEndian(w, first.kind), Vec(2, first.data), EncodeTagged(w, later), tail);
  }

  /** Whatever yields a name is a hello holding that name: the parser accepts nothing else. */
  lemma ParsedIsHello(b: bytes) returns (h: Hello, trailing: bytes)
    requires Parse(b).Ok?
    ensures WellFormed(h) && h.name == Parse(b).value && b == Encode(h) + trailing
  {
    var (hs, after) := Take(2, b[3..]).value;
    VecTake(2, b[3..]);
    h := HandshakeWasEncoded(hs, b[1..3]);
    SplitRecord(b);
    trailing := after;
    PushIn([22], h.recordVersion, Vec(2, hs), trailing);
  }

  lemma SplitRecord(b: bytes)
    requires |b| >= 3
    ensures b == [b[0]] + (b[1..3] + b[3..])
  {
  }

  lemma HandshakeWasEncoded(hs: bytes, version: bytes) returns (h: Hello)
    requires ParseHandshake(hs).Ok? && |hs| < Pow256(2) && |version| == 2
    ensures Handshake(h) == hs && h.name == ParseHandshake(hs).value && WellFormed(h) && h.recordVersion == version
  {
    var (body, afterHello) := Take(3, hs[1..]).value;
    VecTake(3, hs[1..]);
    UnwrapBody(hs);
    h := BodyWasEncoded(body, version, afterHello);
  }

  lemma UnwrapBody(hs: bytes)
    requires |hs| >= 4 && hs[0] == 1 && Take(3, hs[1..]).Some?
    ensures var (body, after) := Take(3, hs[1..]).value; WrapBody(body, after) == hs
  {
    VecTake(3, hs[1..]);
    SplitAt(hs, 1);
    assert hs[..1] == [1];
  }

  lemma BodyWasEncoded(body: bytes, version: bytes, afterHello: bytes) returns (h: Hello)
    requires ParseBody(body).Ok? && |body| < Pow256(3)
    ensures Body(h) == body && h.name == ParseBody(body).value
    ensures h.recordVersion == version && h.afterHello == afterHello && |h.head| == 34
    ensures |h.sessionId| < Pow256(1) && |h.cipherSuites| < Pow256(2) && |h.compressions| < Pow256(1)
    ensures ExtensionsFit(h)
  {
    var p0 := body[34..];
    var (sid, p1) := Take(1, p0).value;
    var (ciphers, p2) := Take(2, p1).value;
    var (compressions, p3) := Take(1, p2).value;
    VecTake(1, p0);
    VecTake(2, p1);
    VecTake(1, p2);
    h := ExtensionsWereEncoded(p3, Hello(version, body[..34], sid, ciphers, compressions, [], [], [], [], [], [], [], afterHello));
    SplitAt(body, 34);
  }

  predicate SameOutside(g: Hello, h: Hello) {
    g.recordVersion == h.recordVersion && g.head == h.head && g.sessionId == h.sessionId && g.cipherSuites == h.cipherSuites
    && g.compressions == h.compressions && g.afterHello == h.afterHello
  }

  lemma ExtensionsWereEncoded(p: bytes, draft: Hello) returns (h: Hello)
    requires ParseExtensions(p).Ok?
    ensures p == Vec(2, Extensions(h)) + h.afterExtensions && h.name == ParseExtensions(p).value
    ensures SameOutside(h, draft) && ExtensionsFit(h)
  {
    var (exts, afterExts) := Take(2, p).value;
    VecTake(2, p);
    var data := FindZero(2, exts).value;
    var before, afterSni := FoundWasEncoded(2, exts);
    var (list, afterList) := Take(2, data).value;
    VecTake(2, data);
    var others, afterName := FoundWasEncoded(1, list);
    ZeroBytes();
    h := draft.(before := before, others := others, name := ParseExtensions(p).value, afterName := afterName,
                afterList := afterList, afterSni := afterSni, afterExtensions := afterExts);
  }

  // ---------------------------------------------------------------- prefixes and what follows

  /** Every strict prefix of a record is a truncated one, so reading more is the right answer to it. */
  lemma PrefixIsTruncated(h: Hello, n: nat)
    requires WellFormed(h) && n < |Encode(h)| <= MAX_CLIENT_HELLO_BYTES
    ensures Parse(Encode(h)[..n]) == Err(Truncated)
  {
    var b := Encode(h)[..n];
    if n >= 5 {
      assert b[3..][..2] == BigEndian(2, |Handshake(h)|);
      NumberOfBigEndian(2, |Handshake(h)|);
    }
  }

  /** Once the record is complete, bytes after it change nothing. */
  lemma LaterBytesIgnored(b: bytes, more: bytes)
    requires |b + more| <= MAX_CLIENT_HELLO_BYTES
    requires |b| >= 5 && Take(2, b[3..]).Some?
    ensures Parse(b + more) == Parse(b)
  {
    var (hs, rest) := Take(2, b[3..]).value;
    VecTake(2, b[3..]);
    assert (b + more)[3..] == Vec(2, hs) + (rest + more);
    TakeVec(2, hs, rest + more);
  }

  // ---------------------------------------------------------------- the parser as it runs

  function Uint16(s: bytes): nat
    requires |s| == 2
  {
    256 * s[0] as int + s[1] as int
  }

  /** Reading a length by hand and slicing is taking a length-prefixed part. */
  lemma TakeSlices(w: nat, p: bytes)
    requires w <= |p|
    ensures w == 1 ==> Number(p[..w]) == p[0] as int
    ensures w == 2 ==> Number(p[..w]) == Uint16(p[..2])
    ensures w == 3 ==> Number(p[..w]) == 65536 * p[0] as int + 256 * p[1] as int + p[2] as int
  {
    SmallNumbers(p[..w]);
  }

  lemma Reslice(s: bytes, k: nat, i: nat, j: nat)
    requires k + i <= k + j <= |s|
    ensures s[k..][i..j] == s[k + i..k + j] && s[k..][i..] == s[k + i..]
  {
  }

  method ParseSNI(b: bytes) returns (r: Parsed)
    ensures r == Parse(b)
  {
    if |b| > MAX_CLIENT_HELLO_BYTES { return Err(Oversize); }
    if |b| < 5 { return Err(Truncated); }
    if b[0] != 22 { return Err(NotTLS); }
    var recLen := Uint16(b[3..5]);
    Reslice(b, 3, 0, 2);
    TakeSlices(2, b[3..]);
    if recLen + 5 > |b| { return Err(Truncated); }
    Reslice(b, 3, 2, 2 + recLen);
    r := ParseHandshakeBytes(b[5..5 + recLen]);
  }

  method ParseHandshakeBytes(hs: bytes) returns (r: Parsed)
    ensures r == ParseHandshake(hs)
  {
    if |hs| < 4 || hs[0] != 1 { return Err(NotTLS); }
    var hsLen := 65536 * hs[1] as int + 256 * hs[2] as int + hs[3] as int;
    TakeSlices(3, hs[1..]);
    if hsLen + 4 > |hs| { return Err(Truncated); }
    Reslice(hs, 1, 3, 3 + hsLen);
    var body := hs[4..4 + hsLen];
    r := ParseBodyBytes(body);
  }

  method ParseBodyBytes(body: bytes) returns (r: Parsed)
    ensures r == ParseBody(body)
  {
    if |body| < 35 { return Err(Truncated); }
    var p := body[34..];
    TakeSlices(1, p);
    var sidLen := p[0] as int;
    if 1 + sidLen > |p| { return Err(Truncated); }
    p := p[1 + sidLen..];
    if |p| < 2 { return Err(Truncated); }
    TakeSlices(2, p);
    var csLen := Uint16(p[..2]);
    if 2 + csLen > |p| { return Err(Truncated); }
    p := p[2 + csLen..];
    if |p| < 1 { return Err(Truncated); }
    TakeSlices(1, p);
    var cmLen := p[0] as int;
    if 1 + cmLen > |p| { return Err(Truncated); }
    p := p[1 + cmLen..];
    r := ParseExtensionBytes(p);
  }

  method ParseExtensionBytes(p: bytes) returns (r: Parsed)
    ensures r == ParseExtensions(p)
  {
    if |p| < 2 { return Err(NoSNI); }
    TakeSlices(2, p);
    var extLen := Uint16(p[..2]);
    if 2 + extLen > |p| { return Err(Truncated); }
    var exts := p[2..2 + extLen];
    ghost var whole := exts;
    while |exts| >= 4
      invariant FindZero(2, exts) == FindZero(2, whole)
      decreases |exts|
    {
      var extType := Uint16(exts[..2]);
      var extDataLen := Uint16(exts[2..4]);
      TakeSlices(2, exts);
      Reslice(exts, 2, 0, 2);
      TakeSlices(2, exts[2..]);
      if 4 + extDataLen > |exts| { return Err(Truncated); }
      Reslice(exts, 2, 2, 2 + extDataLen);
      var extData := exts[4..4 + extDataLen];
      if extType == 0 {
        r := ParseSniBytes(extData);
        return;
      }
      exts := exts[4 + extDataLen..];
    }
    return Err(NoSNI);
  }

  method ParseSniBytes(data: bytes) returns (r: Parsed)
    ensures r == ParseSniData(data)
  {
    if |data| < 2 { return Err(Truncated); }
    TakeSlices(2, data);
    var listLen := Uint16(data[..2]);
    if 2 + listLen > |data| { return Err(Truncated); }
    var list := data[2..2 + listLen];
    ghost var whole := list;
    while |list| >= 3
      invariant FindZero(1, list) == FindZero(1, whole)
      decreases |list|
    {
      var nameType := list[0];
      var nameLen := Uint16(list[1..3]);
      TakeSlices(1, list);
      Reslice(list, 1, 0, 2);
      TakeSlices(2, list[1..]);
      if 3 + nameLen > |list| { return Err(Truncated); }
      Reslice(list, 1, 2, 2 + nameLen);
      if nameType == 0 { return Ok(list[3..3 + nameLen]); }
      list := list[3 + nameLen..];
    }
    return Err(NoSNI);
  }

  // ---------------------------------------------------------------- the fixture builder

  function Zeros(n: nat): (r: bytes)
    ensures |r| == n
  {
    seq(n, _ => 0)
  }

  function BuiltList(sni: bytes): bytes { [0] + Vec(2, sni) }

  function BuiltExtensions(sni: bytes, includeSNI: bool): bytes {
    if includeSNI && sni != [] then [0, 0] + Vec(2, Vec(2, BuiltList(sni))) else []
  }

  function BuiltFront(): (r: bytes)
    ensures |r| == 41
  {
    ([3, 3] + Zeros(32)) + ([0] + ([0, 2, 19, 1] + [1, 0]))
  }

  function BuiltRecord(exts: bytes): bytes { [22, 3, 1] + Vec(2, [1] + Vec(3, BuiltFront() + Vec(2, exts))) }

  /** `buildClientHelloHelper`: append part after part; lengths are cut to their fields' widths. */
  method BuildClientHello(sni: bytes, includeSNI: bool) returns (rec: bytes)
    ensures rec == BuiltRecord(BuiltExtensions(sni, includeSNI))
  {
    var zeros := Zeros(32);
    var body: bytes := [3, 3];
    body := body + zeros;
    body := body + [0];
    body := body + [0, 2, 19, 1];
    body := body + [1, 0];
    var exts: bytes := BuildExtensions(sni, includeSNI);
    assert body == BuiltFront();
    body := body + BigEndian(2, |exts|);
    body := body + exts;
    assert body == BuiltFront() + Vec(2, exts);
    var hs: bytes := [1] + BigEndian(3, |body|);
    hs := hs + body;
    assert hs == [1] + Vec(3, body);
    rec := [22, 3, 1] + BigEndian(2, |hs|);
    rec := rec + hs;
  }

  method BuildExtensions(sni: bytes, includeSNI: bool) returns (exts: bytes)
    ensures exts == BuiltExtensions(sni, includeSNI)
  {
    exts := [];
    if includeSNI && sni != [] {
      var sniExt: bytes := BigEndian(2, 3 + |sni|);
      sniExt := sniExt + [0];
      sniExt := sniExt + BigEndian(2, |sni|);
      sniExt := sniExt + sni;
      assert sniExt == Vec(2, BuiltList(sni));
      exts := exts + [0, 0];
      exts := exts + BigEndian(2, |sniExt|);
      exts := exts + sniExt;
    }
  }

  lemma BuiltLength(sni: bytes)
    requires sni != []
    ensures |BuiltRecord(BuiltExtensions(sni, true))| == 61 + |sni|
  {
  }

  /** The hello the builder makes for a name: no session, one cipher suite, one extension. */
  function BuiltHello(sni: bytes): Hello {
    Hello([3, 1], [3, 3] + Zeros(32), [], [19, 1], [0], [], [], sni, [], [], [], [], [])
  }

  lemma BuiltListIs(sni: bytes)
    ensures NameList(BuiltHello(sni)) == BuiltList(sni) && SniData(BuiltHello(sni)) == Vec(2, BuiltList(sni))
    ensures Extensions(BuiltHello(sni)) == [0, 0] + Vec(2, Vec(2, BuiltList(sni)))
  {
    assert Vec(2, sni) + [] == Vec(2, sni) && EncodeTagged(1, []) == [];
    assert NameList(BuiltHello(sni)) == BuiltList(sni);
    assert SniData(BuiltHello(sni)) == Vec(2, BuiltList(sni));
    assert Vec(2, SniData(BuiltHello(sni))) + [] == Vec(2, SniData(BuiltHello(sni))) && EncodeTagged(2, []) == [];
  }

  lemma SmallVecs()
    ensures Vec(1, []) == [0] && Vec(2, [19, 1]) == [0, 2, 19, 1] && Vec(1, [0]) == [1, 0]
  {
    ZeroBytes();
    assert BigEndian(1, 1) == [1] && BigEndian(2, 2) == BigEndian(1, 0) + [2];
  }

  lemma BuiltBodyIs(sni: bytes)
    ensures Body(BuiltHello(sni)) == BuiltFront() + Vec(2, [0, 0] + Vec(2, Vec(2, BuiltList(sni))))
  {
    SmallVecs();
    BuiltListIs(sni);
    var e := Vec(2, Extensions(BuiltHello(sni)));
    assert e + [] == e;
    PushIn([0], [0, 2, 19, 1], [1, 0], e);
    Associative([3, 3] + Zeros(32), [0] + ([0, 2, 19, 1] + [1, 0]), e);
  }

  lemma BuiltIsHello(sni: bytes)
    requires sni != []
    ensures Encode(BuiltHello(sni)) == BuiltRecord(BuiltExtensions(sni, true))
    ensures |sni| <= MAX_CLIENT_HELLO_BYTES ==> WellFormed(BuiltHello(sni))
  {
    BuiltListIs(sni);
    BuiltBodyIs(sni);
    Powers();
    var h := BuiltHello(sni);
    var b := Vec(3, Body(h));
    assert b + [] == b && Handshake(h) == [1] + b;
    assert Encode(h) == [22, 3, 1] + Vec(2, Handshake(h));
  }

  lemma BuiltWithoutName(sni: bytes, includeSNI: bool)
    requires !(includeSNI && sni != [])
    ensures Parse(BuiltRecord(BuiltExtensions(sni, includeSNI))) == Err(NoSNI)
  {
    ZeroBytes();
    var body := BuiltFront() + [0, 0];
    BareBodyHasNoName();
    Powers();
    assert Vec(2, []) == [0, 0];
    BareHandshake(body);
    BareRecord([1] + Vec(3, body));
  }

  lemma BareHandshake(body: bytes)
    requires |body| < Pow256(3)
    ensures ParseHandshake([1] + Vec(3, body)) == ParseBody(body)
  {
    var v := Vec(3, body);
    assert v + [] == v;
    TakeVec(3, body, []);
    assert ([1] + v)[1..] == v;
  }

  lemma BareRecord(hs: bytes)
    requires |hs| + 5 <= MAX_CLIENT_HELLO_BYTES
    ensures Parse([22, 3, 1] + Vec(2, hs)) == ParseHandshake(hs)
  {
    Powers();
    var v := Vec(2, hs);
    assert v + [] == v;
    RecordParses([3, 1], hs, []);
    assert [22] + ([3, 1] + v) == [22, 3, 1] + v;
  }

  lemma BareBodyHasNoName()
    ensures ParseBody(BuiltFront() + [0, 0]) == Err(NoSNI)
  {
    ZeroBytes();
    SmallVecs();
    Powers();
    var p3: bytes := [0, 0];
    var p2 := Vec(1, [0]) + p3;
    var p1 := Vec(2, [19, 1]) + p2;
    var p0 := Vec(1, []) + p1;
    PushIn([0], [0, 2, 19, 1], [1, 0], p3);
    Associative([3, 3] + Zeros(32), [0] + ([0, 2, 19, 1] + [1, 0]), p3);
    SplitBack([3, 3] + Zeros(32), p0);
    TakeVec(1, [], p1);
    TakeVec(2, [19, 1], p2);
    TakeVec(1, [0], p3);
    TakeVec(2, [], []);
    assert Vec(2, []) + [] == p3;
  }

  /** The builder and the parser agree exactly as far as the parser reads: names of 1 to 16323 bytes come back. */
  lemma BuilderRoundTrip(sni: bytes)
    ensures Parse(BuiltRecord(BuiltExtensions(sni, true)))
      == if sni == [] then Err(NoSNI) else if |sni| <= 16323 then Ok(sni) else Err(Oversize)
  {
    if sni == [] {
      BuiltWithoutName(sni, true);
    } else {
      BuiltLength(sni);
      if |sni| <= 16323 {
        BuiltIsHello(sni);
        HelloParses(BuiltHello(sni), []);
        assert Encode(BuiltHello(sni)) + [] == Encode(BuiltHello(sni));
      }
    }
  }
}
