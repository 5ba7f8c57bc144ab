/** The STUN codec of paradox/lib/stun.py: attribute bodies, XOR-mapped addresses and requests. */
module Stun {
  import opened Wrappers
  import opened DottedAddresses

  function BigEndian(s: seq<Byte>): nat {
    if s == [] then 0 else BigEndian(s[..|s| - 1]) * 256 + s[|s| - 1] as int
  }

  /** int(b2a_hex(s), 16); an empty slice raises ValueError. */
  function Number(s: seq<Byte>): Option<nat> {
    if s == [] then None else Some(BigEndian(s))
  }

  // ---------- addresses ----------

  const MAGIC_COOKIE: seq<Byte> := [0x21, 0x12, 0xA4, 0x42]
  const FAMILY_IPv4: Byte := 0x01
  const FAMILY_IPv6: Byte := 0x02

  const MAPPED_ADDRESS: seq<Byte> := [0x00, 0x01]
  const XOR_MAPPED_ADDRESS: seq<Byte> := [0x80, 0x82]
  const XOR_MAPPED_ADDRESS_RFC: seq<Byte> := [0x00, 0x20]
  const SOFTWARE: seq<Byte> := [0x80, 0x22]

  datatype Family = IPv4 | IPv6

  datatype Mapped = Mapped(family: Family, port: bv16, ip: string)

  predicate IsAddress(kind: seq<Byte>) {
    kind == MAPPED_ADDRESS || kind == XOR_MAPPED_ADDRESS || kind == XOR_MAPPED_ADDRESS_RFC
  }

  /** The number in `s` as four bytes; more than 32 bits make struct.pack fail, no byte at all int(). */
  function AsFourBytes(s: seq<Byte>): (r: Option<seq<Byte>>)
    ensures r.Some? ==> |r.value| == 4
  {
    if s == [] then None
    else if |s| < 4 then Some(seq(4 - |s|, _ => 0) + s)
    else if forall i | 0 <= i < |s| - 4 :: s[i] == 0 then Some(s[|s| - 4..])
    else None
  }

  /** `read_mapped_address`; None where the source raises. A short port is zero-extended. */
  function ReadMappedAddress(kind: seq<Byte>, body: seq<Byte>, len: nat): (r: Option<Mapped>)
  {
    if !IsAddress(kind) || Slice(body, 0, 1) != [0x00] then None
    else
      var family := Slice(body, 1, 2);
      var port := Slice(body, 2, 4);
      var address := AsFourBytes(Slice(body, 4, len));
      if family != [FAMILY_IPv4] && family != [FAMILY_IPv6] then None
      else if port == [] || address.None? then None
      else
        var xor := kind != MAPPED_ADDRESS;
        var p := PortNumber(if |port| == 1 then [0x00] + port else port);
        var a := AddressNumber(address.value);
        Some(Mapped(if family == [FAMILY_IPv4] then IPv4 else IPv6,
                    if xor then p ^ 0x2112 else p, Dotted(AddressBytes(if xor then a ^ COOKIE else a))))
  }

  /** An address attribute as section 15.1 and 15.2 of RFC 5389 lay it out. */
  function AddressBody(port: seq<Byte>, address: seq<Byte>): seq<Byte> {
    [0x00, FAMILY_IPv4] + port + address
  }

  lemma AddressSlices(port: seq<Byte>, address: seq<Byte>)
    requires |port| == 2 && |address| == 4
    ensures var body := AddressBody(port, address);
      && Slice(body, 0, 1) == [0x00] && Slice(body, 1, 2) == [FAMILY_IPv4]
      && Slice(body, 2, 4) == port && Slice(body, 4, 8) == address
  {}

  lemma ReadsAddressParts(kind: seq<Byte>, body: seq<Byte>, port: seq<Byte>, address: seq<Byte>)
    requires IsAddress(kind) && |port| == 2 && |address| == 4
    requires Slice(body, 0, 1) == [0x00] && Slice(body, 1, 2) == [FAMILY_IPv4]
    requires Slice(body, 2, 4) == port && Slice(body, 4, 8) == address
    ensures var xor := kind != MAPPED_ADDRESS;
      ReadMappedAddress(kind, body, 8) == Some(Mapped(
        IPv4, if xor then PortNumber(port) ^ 0x2112 else PortNumber(port),
        Dotted(AddressBytes(if xor then AddressNumber(address) ^ COOKIE else AddressNumber(address)))))
  {
    assert [] + address == address;
  }

  /** A mapped address, plain or exclusive-or'ed, decodes to the port and to the text of the address that
      it was encoded from. */
  lemma AddressRoundTrip(kind: seq<Byte>, port: bv16, octets: seq<Byte>)
    requires IsAddress(kind) && |octets| == 4
    ensures var xor := kind != MAPPED_ADDRESS;
      && IpToBytes(Dotted(octets), xor).Some?
      && var body := AddressBody(PortToBytes(port, xor), IpToBytes(Dotted(octets), xor).value);
         ReadMappedAddress(kind, body, |body|) == Some(Mapped(IPv4, port, Dotted(octets)))
  {
    var xor := kind != MAPPED_ADDRESS;
    DottedToBytes(octets, xor);
    var p, a := PortToBytes(port, xor), IpToBytes(Dotted(octets), xor).value;
    AddressSlices(p, a);
    ReadsAddressParts(kind, AddressBody(p, a), p, a);
    PortRoundTrip(port, xor);
    XorTwice(port);
    AddressBytesOfNumber(octets);
    CookieTwice(octets);
  }

  // ---------- attributes ----------

  datatype Parsed = Address(kind: seq<Byte>, mapped: Mapped) | Other(kind: seq<Byte>, body: seq<Byte>, len: nat)

  /** One attribute; None where the source raises. `decodes` is the UTF-8 decoder's verdict. */
  function ParseAttribute(kind: seq<Byte>, body: seq<Byte>, len: nat, decodes: seq<Byte> -> bool): Option<Parsed> {
    if IsAddress(kind) then
      match ReadMappedAddress(kind, body, len)
      case None => None
      case Some(mapped) => Some(Address(kind, mapped))
    else if kind == SOFTWARE && !decodes(body) then None
    else Some(Other(kind, body, len))
  }

  /** How numbers and attribute values are decoded. The loop over the attributes does not depend on it. */
  datatype Codec = Codec(number: seq<Byte> -> Option<nat>, parse: (seq<Byte>, seq<Byte>, nat) -> Option<Parsed>)

  /** The source's decoding. */
  function Stun(decodes: seq<Byte> -> bool): Codec {
    Codec(Number, (kind: seq<Byte>, body: seq<Byte>, len: nat) => ParseAttribute(kind, body, len, decodes))
  }

  function Padding(n: nat): (p: nat)
    ensures p < 4 && (n + p) % 4 == 0
  {
    if n % 4 == 0 then 0 else 4 - n % 4
  }

  /** One attribute and the position of the next. */
  datatype Turn = Turn(parsed: Parsed, next: nat)

  /** The body of the loop of `read_attributes` at position pos. */
  function ReadOne(attributes: seq<Byte>, pos: nat, codec: Codec): (r: Option<Turn>)
    ensures r.Some? ==> r.value.next >= pos + 4
  {
    var len := codec.number(Slice(attributes, pos + 2, pos + 4));
    if len.None? then None
    else
      var n := len.value;
      match codec.parse(Slice(attributes, pos, pos + 2), Slice(attributes, pos + 4, pos + 4 + n), n)
      case None => None
      case Some(parsed) => Some(Turn(parsed, pos + 4 + n + Padding(n)))
  }

  /** All attributes from pos on, and where the loop stops. */
  datatype Result = Failed | Read(attributes: seq<Parsed>, end: nat)

  function ReadFrom(attributes: seq<Byte>, bodyLength: nat, pos: nat, codec: Codec): Result
    decreases if pos < bodyLength then bodyLength - pos else 0
  {
    if pos >= bodyLength then Read([], pos)
    else
      match ReadOne(attributes, pos, codec)
      case None => Failed
      case Some(turn) => Prepend([turn.parsed], ReadFrom(attributes, bodyLength, turn.next, codec))
  }

  function Prepend(done: seq<Parsed>, r: Result): Result {
    if r.Failed? then Failed else Read(done + r.attributes, r.end)
  }

  lemma PrependTwice(xs: seq<Parsed>, ys: seq<Parsed>, r: Result)
    ensures Prepend(xs, Prepend(ys, r)) == Prepend(xs + ys, r)
    ensures Prepend([], r) == r
  {
    if r.Read? {
      assert xs + (ys + r.attributes) == (xs + ys) + r.attributes;
      assert [] + r.attributes == r.attributes;
    }
  }

  /** `read_attributes`; the source's codec is Stun. */
  method ReadAttributes(attributes: seq<Byte>, bodyLength: nat, codec: Codec) returns (r: Result)
    ensures r == ReadFrom(attributes, bodyLength, 0, codec)
  {
    var pos: nat := 0;
    var parsed: seq<Parsed> := [];
    PrependTwice([], [], ReadFrom(attributes, bodyLength, 0, codec));
    while pos < bodyLength
      invariant ReadFrom(attributes, bodyLength, 0, codec)
             == Prepend(parsed, ReadFrom(attributes, bodyLength, pos, codec))
    {
      var turn := ReadOne(attributes, pos, codec);
      if turn.None? {
        return Failed;
      }
      PrependTwice(parsed, [turn.value.parsed], ReadFrom(attributes, bodyLength, turn.value.next, codec));
      parsed := parsed + [turn.value.parsed];
      pos := turn.value.next;
    }
    assert parsed + [] == parsed;
    r := Read(parsed, pos);
  }

  // ---------- encoded bodies ----------

  /** An attribute on the wire, section 15 of RFC 5389: type, length, value, and padding to four bytes. */
  datatype Wire = Wire(kind: seq<Byte>, length: seq<Byte>, value: seq<Byte>, padding: seq<Byte>)

  predicate WellFormed(w: Wire, number: seq<Byte> -> Option<nat>) {
    && |w.kind| == 2 && |w.length| == 2 && number(w.length) == Some(|w.value|) && |w.padding| == Padding(|w.value|)
  }

  function Encode(w: Wire): seq<Byte> {
    w.kind + w.length + w.value + w.padding
  }

  function EncodeAll(ws: seq<Wire>): seq<Byte> {
    if ws == [] then [] else Encode(ws[0]) + EncodeAll(ws[1..])
  }

  function ParseOf(w: Wire, codec: Codec): Option<Parsed> {
    codec.parse(w.kind, w.value, |w.value|)
  }

  /** Every attribute parsed by itself, in order; Failed as soon as one fails. */
  function ParseAll(ws: seq<Wire>, end: nat, codec: Codec): Result {
    if ws == [] then Read([], end)
    else
      match ParseOf(ws[0], codec)
      case None => Failed
      case Some(parsed) => Prepend([parsed], ParseAll(ws[1..], end, codec))
  }

  lemma SliceMiddle(s: seq<Byte>, x: seq<Byte>, y: seq<Byte>, z: seq<Byte>)
    requires s == x + (y + z)
    ensures Slice(s, |x|, |x| + |y|) == y
    ensures s == (x + y) + z && |x + y| == |x| + |y|
  {}

  lemma SlicesOfParts(s: seq<Byte>, before: seq<Byte>, kind: seq<Byte>, length: seq<Byte>, value: seq<Byte>,
          rest: seq<Byte>)
    requires |kind| == 2 && |length| == 2
    requires s == before + (kind + (length + (value + rest)))
    ensures Slice(s, |before|, |before| + 2) == kind
    ensures Slice(s, |before| + 2, |before| + 4) == length
    ensures Slice(s, |before| + 4, |before| + 4 + |value|) == value
  {
    SliceMiddle(s, before, kind, length + (value + rest));
    SliceMiddle(s, before + kind, length, value + rest);
    SliceMiddle(s, before + kind + length, value, rest);
  }

  lemma EncodedParts(w: Wire, after: seq<Byte>)
    ensures Encode(w) + after == w.kind + (w.length + (w.value + (w.padding + after)))
    ensures |w.kind| == 2 && |w.length| == 2 && |w.padding| == Padding(|w.value|) ==>
      |Encode(w)| == 4 + |w.value| + Padding(|w.value|)
  {}

  /** The reader takes exactly one encoded attribute. */
  lemma ReadsOneEncoded(s: seq<Byte>, before: seq<Byte>, w: Wire, after: seq<Byte>, codec: Codec)
    requires WellFormed(w, codec.number) && s == before + (Encode(w) + after)
    ensures ReadOne(s, |before|, codec) ==
      match ParseOf(w, codec) case None => None case Some(parsed) => Some(Turn(parsed, |before| + |Encode(w)|))
  {
    EncodedParts(w, after);
    SlicesOfParts(s, before, w.kind, w.length, w.value, w.padding + after);
  }

  predicate AllWellFormed(ws: seq<Wire>, number: seq<Byte> -> Option<nat>) {
    ws == [] || (WellFormed(ws[0], number) && AllWellFormed(ws[1..], number))
  }

  /** One turn of the reader, given what it reads there. */
  lemma ReadsFromNext(s: seq<Byte>, pos: nat, codec: Codec, parsed: Option<Parsed>, next: nat)
    requires pos < |s| && ReadOne(s, pos, codec) == (match parsed case None => None case Some(p) => Some(Turn(p, next)))
    ensures ReadFrom(s, |s|, pos, codec) ==
      match parsed case None => Failed case Some(p) => Prepend([p], ReadFrom(s, |s|, next, codec))
  {}

  lemma {:induction false} ReadsEncodedFrom(s: seq<Byte>, before: seq<Byte>, ws: seq<Wire>, codec: Codec)
    requires AllWellFormed(ws, codec.number) && s == before + EncodeAll(ws)
    ensures ReadFrom(s, |s|, |before|, codec) == ParseAll(ws, |s|, codec)
    decreases |ws|
  {
    if ws != [] {
      var w, rest := ws[0], EncodeAll(ws[1..]);
      ReadsOneEncoded(s, before, w, rest, codec);
      EncodedParts(w, rest);
      SliceMiddle(s, before, Encode(w), rest);
      ReadsFromNext(s, |before|, codec, ParseOf(w, codec), |before| + |Encode(w)|);
      ReadsEncodedFrom(s, before + Encode(w), ws[1..], codec);
    }
  }

  /** Reading an encoded body returns every attribute once, in order, and ends at the body's length. */
  lemma ReadsEncoded(ws: seq<Wire>, codec: Codec)
    requires AllWellFormed(ws, codec.number)
    ensures var s := EncodeAll(ws); ReadFrom(s, |s|, 0, codec) == ParseAll(ws, |s|, codec)
  {
    assert [] + EncodeAll(ws) == EncodeAll(ws);
    ReadsEncodedFrom(EncodeAll(ws), [], ws, codec);
  }

  /** If each attribute parses, the result lists exactly their parses. */
  lemma {:induction false} ParseAllAt(ws: seq<Wire>, end: nat, codec: Codec)
    requires forall i | 0 <= i < |ws| :: ParseOf(ws[i], codec).Some?
    ensures ParseAll(ws, end, codec).Read? && ParseAll(ws, end, codec).end == end
    ensures |ParseAll(ws, end, codec).attributes| == |ws|
    ensures forall i | 0 <= i < |ws| :: Some(ParseAll(ws, end, codec).attributes[i]) == ParseOf(ws[i], codec)
  {
    if ws != [] {
      ParseAllAt(ws[1..], end, codec);
    }
  }

  // ---------- requests ----------

  const BINDING_REQUEST_SIGN: seq<Byte> := [0x00, 0x01]
  const CHANGE_REQUEST: seq<Byte> := [0x00, 0x03]
  const CONNECT_REQUEST: seq<Byte> := [0x00, 0x0a]
  const CONNECTION_BIND_REQUEST: seq<Byte> := [0x00, 0x0b]
  const CONNECTION_REFRESH_REQUEST: seq<Byte> := [0x00, 0x04]
  const XOR_PEER_ADDRESS: seq<Byte> := [0x00, 0x12]
  const REQUESTED_TRANSPORT: seq<Byte> := [0x00, 0x19]
  const TRANSPORT_TCP: seq<Byte> := [0x06]
  const LIFETIME: seq<Byte> := [0x00, 0x0d]
  const REQUESTED_ADDRESS_TYPE: seq<Byte> := [0x00, 0x17]
  const RESERVED3: seq<Byte> := [0x00, 0x00, 0x00]
  const CONNECTION_ID: seq<Byte> := [0x00, 0x2a]

  function Header(sign: seq<Byte>, bodyLength: seq<Byte>, tid: seq<Byte>): seq<Byte> {
    sign + bodyLength + MAGIC_COOKIE + tid
  }

  /** Each builder raises on a transaction id that is not 12 bytes long. */
  function BuildBindingRequest(tid: seq<Byte>): Option<seq<Byte>> {
    if |tid| != 12 then None else Some(Header(BINDING_REQUEST_SIGN, [0x00, 0x00], tid))
  }

  function BuildChangeRequest(tid: seq<Byte>): Option<seq<Byte>> {
    if |tid| != 12 then None
    else Some(Header(CHANGE_REQUEST, [0x00, 0x18], tid)
      + REQUESTED_TRANSPORT + [0x00, 0x04] + TRANSPORT_TCP + RESERVED3
      + LIFETIME + [0x00, 0x04] + [0x00, 0x00, 0x02, 0x58]
      + REQUESTED_ADDRESS_TYPE + [0x00, 0x04] + [FAMILY_IPv4] + RESERVED3)
  }

  function BuildConnectionBindRequest(tid: seq<Byte>, connectionId: seq<Byte>): Option<seq<Byte>> {
    if |tid| != 12 || |connectionId| != 4 then None
    else Some(Header(CONNECTION_BIND_REQUEST, [0x00, 0x08], tid) + CONNECTION_ID + [0x00, 0x04] + connectionId)
  }

  function BuildConnectionRefreshRequest(tid: seq<Byte>): Option<seq<Byte>> {
    if |tid| != 12 then None
    else Some(Header(CONNECTION_REFRESH_REQUEST, [0x00, 0x08], tid)
              + LIFETIME + [0x00, 0x04] + [0x00, 0x00, 0x02, 0x58])
  }

  function BuildConnectRequest(tid: seq<Byte>, xoraddr: Option<seq<Byte>>): Option<seq<Byte>> {
    if |tid| != 12 || xoraddr.None? then None
    else Some(Header(CONNECT_REQUEST, [0x00, 0x0c], tid) + XOR_PEER_ADDRESS + [0x00, 0x08] + xoraddr.value)
  }

  /** `validate_response` */
  predicate ValidateResponse(buf: seq<Byte>, tid: seq<Byte>) {
    |buf| >= 20 && buf[4..8] == MAGIC_COOKIE && buf[8..20] == tid
  }

  /** A message whose header is valid for `tid` and declares the length of the body `ws` encodes. */
  ghost predicate Carries(message: seq<Byte>, tid: seq<Byte>, ws: seq<Wire>) {
    && ValidateResponse(message, tid)
    && Number(message[2..4]) == Some(|message| - 20)
    && message[20..] == EncodeAll(ws)
    && AllWellFormed(ws, Number)
  }

  lemma SmallNumber(low: Byte)
    ensures Number([0x00, low]) == Some(low as int)
  {
    assert [0x00, low][..1] == [0x00 as Byte] && [0x00 as Byte][..0] == [];
    assert BigEndian([0x00 as Byte]) == 0;
  }

  lemma RequestCarries(message: seq<Byte>, sign: seq<Byte>, length: seq<Byte>, tid: seq<Byte>, ws: seq<Wire>)
    requires |sign| == 2 && |length| == 2 && |tid| == 12
    requires message == Header(sign, length, tid) + EncodeAll(ws)
    ensures ValidateResponse(message, tid) && message[2..4] == length && message[20..] == EncodeAll(ws)
    ensures |message| == 20 + |EncodeAll(ws)|
  {}

  lemma EncodeOne(w: Wire)
    requires |w.kind| == 2 && |w.length| == 2
    ensures EncodeAll([w]) == Encode(w) && |Encode(w)| == 4 + |w.value| + |w.padding|
    ensures AllWellFormed([w], Number) <==> WellFormed(w, Number)
  {
    assert [w][1..] == [];
    assert EncodeAll([]) == [] && AllWellFormed([], Number);
    assert EncodeAll([w]) == Encode(w) + EncodeAll([w][1..]);
  }

  lemma EncodeThree(x: Wire, y: Wire, z: Wire)
    requires WellFormed(x, Number) && WellFormed(y, Number) && WellFormed(z, Number)
    ensures EncodeAll([x, y, z]) == Encode(x) + (Encode(y) + Encode(z))
    ensures AllWellFormed([x, y, z], Number)
  {
    assert [x, y, z][1..] == [y, z] && [y, z][1..] == [z];
    EncodeOne(z);
  }

  // The requests are valid, declare their true length, and hold the attributes they say.

  lemma BindingRequestCarriesNothing(tid: seq<Byte>)
    requires |tid| == 12
    ensures Carries(BuildBindingRequest(tid).value, tid, [])
  {
    var header := BuildBindingRequest(tid).value;
    assert EncodeAll([]) == [] && AllWellFormed([], Number) && header + [] == header;
    SmallNumber(0);
    RequestCarries(header, BINDING_REQUEST_SIGN, [0x00, 0x00], tid, []);
  }

  const FOUR_BYTES: seq<Byte> := [0x00, 0x04]
  const TEN_MINUTES: seq<Byte> := [0x00, 0x00, 0x02, 0x58]

  lemma OneAttribute(message: seq<Byte>, sign: seq<Byte>, tid: seq<Byte>, kind: seq<Byte>, value: seq<Byte>)
    requires |sign| == 2 && |tid| == 12 && |kind| == 2 && |value| == 4
    requires message == Header(sign, [0x00, 0x08], tid) + kind + FOUR_BYTES + value
    ensures Carries(message, tid, [Wire(kind, FOUR_BYTES, value, [])])
  {
    var w := Wire(kind, FOUR_BYTES, value, []);
    SmallNumber(4);
    SmallNumber(8);
    EncodeOne(w);
    var header := Header(sign, [0x00, 0x08], tid);
    assert Encode(w) == kind + FOUR_BYTES + value;
    assert header + kind + FOUR_BYTES + value == header + (kind + FOUR_BYTES + value);
    RequestCarries(message, sign, [0x00, 0x08], tid, [w]);
  }

  lemma ConnectionBindRequestCarriesItsId(tid: seq<Byte>, connectionId: seq<Byte>)
    requires |tid| == 12 && |connectionId| == 4
    ensures Carries(BuildConnectionBindRequest(tid, connectionId).value, tid,
                    [Wire(CONNECTION_ID, FOUR_BYTES, connectionId, [])])
  {
    var r := BuildConnectionBindRequest(tid, connectionId).value;
    OneAttribute(r, CONNECTION_BIND_REQUEST, tid, CONNECTION_ID, connectionId);
  }

  lemma RefreshRequestCarriesItsLifetime(tid: seq<Byte>)
    requires |tid| == 12
    ensures Carries(BuildConnectionRefreshRequest(tid).value, tid, [Wire(LIFETIME, FOUR_BYTES, TEN_MINUTES, [])])
  {
    OneAttribute(BuildConnectionRefreshRequest(tid).value, CONNECTION_REFRESH_REQUEST, tid, LIFETIME, TEN_MINUTES);
  }

  /** The three attributes of the change request, one after the other. */
  lemma Regrouped(header: seq<Byte>, a: seq<Byte>, b: seq<Byte>, c: seq<Byte>, d: seq<Byte>, e: seq<Byte>,
          f: seq<Byte>, g: seq<Byte>, h: seq<Byte>)
    ensures header + a + FOUR_BYTES + b + c + d + FOUR_BYTES + e + f + FOUR_BYTES + g + h
         == header + ((a + FOUR_BYTES + (b + c) + []) + ((d + FOUR_BYTES + e + []) + (f + FOUR_BYTES + (g + h) + [])))
  {}

  lemma ChangeRequestCarriesItsAttributes(tid: seq<Byte>)
    requires |tid| == 12
    ensures Carries(BuildChangeRequest(tid).value, tid,
              [Wire(REQUESTED_TRANSPORT, FOUR_BYTES, TRANSPORT_TCP + RESERVED3, []),
               Wire(LIFETIME, FOUR_BYTES, TEN_MINUTES, []),
               Wire(REQUESTED_ADDRESS_TYPE, FOUR_BYTES, [FAMILY_IPv4] + RESERVED3, [])])
  {
    var x := Wire(REQUESTED_TRANSPORT, FOUR_BYTES, TRANSPORT_TCP + RESERVED3, []);
    var y := Wire(LIFETIME, FOUR_BYTES, TEN_MINUTES, []);
    var z := Wire(REQUESTED_ADDRESS_TYPE, FOUR_BYTES, [FAMILY_IPv4] + RESERVED3, []);
    SmallNumber(4);
    SmallNumber(0x18);
    EncodeThree(x, y, z);
    var header := Header(CHANGE_REQUEST, [0x00, 0x18], tid);
    Regrouped(header, REQUESTED_TRANSPORT, TRANSPORT_TCP, RESERVED3, LIFETIME, TEN_MINUTES,
              REQUESTED_ADDRESS_TYPE, [FAMILY_IPv4], RESERVED3);
    RequestCarries(BuildChangeRequest(tid).value, CHANGE_REQUEST, [0x00, 0x18], tid, [x, y, z]);
  }

  /** The connect request declares its true length, and carries its peer address, exactly when that
      address has 8 bytes; the source does not check. */
  lemma ConnectRequestNeedsEightBytes(tid: seq<Byte>, xoraddr: seq<Byte>)
    requires |tid| == 12
    ensures var r := BuildConnectRequest(tid, Some(xoraddr)).value;
      Carries(r, tid, [Wire(XOR_PEER_ADDRESS, [0x00, 0x08], xoraddr, [])]) <==> |xoraddr| == 8
    ensures var r := BuildConnectRequest(tid, Some(xoraddr)).value;
      (Number(r[2..4]) == Some(|r| - 20)) <==> |xoraddr| == 8
  {
    var w := Wire(XOR_PEER_ADDRESS, [0x00, 0x08], xoraddr, []);
    var r := BuildConnectRequest(tid, Some(xoraddr)).value;
    var header := Header(CONNECT_REQUEST, [0x00, 0x0c], tid);
    SmallNumber(0x08);
    SmallNumber(0x0c);
    EncodeOne(w);
    assert Encode(w) == XOR_PEER_ADDRESS + [0x00, 0x08] + xoraddr;
    assert header + XOR_PEER_ADDRESS + [0x00, 0x08] + xoraddr == header + (XOR_PEER_ADDRESS + [0x00, 0x08] + xoraddr);
    RequestCarries(r, CONNECT_REQUEST, [0x00, 0x0c], tid, [w]);
  }

  /** So the request that `send_connect_request` builds from a host and a port, whose address has six
      bytes, declares two bytes more than it has. */
  lemma ConnectRequestFromHost(tid: seq<Byte>, port: bv16, octets: seq<Byte>)
    requires |tid| == 12 && |octets| == 4
    ensures IpToBytes(Dotted(octets), true).Some?
    ensures var xoraddr := PortToBytes(port, true) + IpToBytes(Dotted(octets), true).value;
      var r := BuildConnectRequest(tid, Some(xoraddr)).value;
      Number(r[2..4]) == Some(12) && |r| - 20 == 10
  {
    DottedToBytes(octets, true);
    var xoraddr := PortToBytes(port, true) + IpToBytes(Dotted(octets), true).value;
    SmallNumber(0x0c);
    assert BuildConnectRequest(tid, Some(xoraddr)).value[2..4] == [0x00, 0x0c];
  }
}
