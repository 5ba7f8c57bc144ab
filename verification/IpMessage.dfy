/** The messages of the IP module, paradox/connections/ip/parsers.py: a 16-byte header and a payload
    that is encrypted when the header says so. */
module IpMessage {
  import opened Wrappers
  import opened Gf256
  import opened CipherSteps
  import opened BlockCipher
  import Crypto

  // ---------- bytes and bits ----------

  /** Eight bits, most significant first. */
  datatype Bits = Bits(b7: bool, b6: bool, b5: bool, b4: bool, b3: bool, b2: bool, b1: bool, b0: bool)

  function Pack(x: Bits): Byte {
    (if x.b7 then 0x80 else 0) | (if x.b6 then 0x40 else 0) | (if x.b5 then 0x20 else 0) | (if x.b4 then 0x10 else 0)
    | (if x.b3 then 0x08 else 0) | (if x.b2 then 0x04 else 0) | (if x.b1 then 0x02 else 0) | (if x.b0 then 0x01 else 0)
  }

  function Unpack(b: Byte): Bits {
    Bits(b & 0x80 != 0, b & 0x40 != 0, b & 0x20 != 0, b & 0x10 != 0,
         b & 0x08 != 0, b & 0x04 != 0, b & 0x02 != 0, b & 0x01 != 0)
  }

  lemma UnpackPack(x: Bits)
    ensures Unpack(Pack(x)) == x
  {}

  function Digit(on: bool, weight: nat): nat {
    if on then weight else 0
  }

  function Number(x: Bits): nat {
    Digit(x.b7, 128) + Digit(x.b6, 64) + Digit(x.b5, 32) + Digit(x.b4, 16)
    + Digit(x.b3, 8) + Digit(x.b2, 4) + Digit(x.b1, 2) + Digit(x.b0, 1)
  }

  /** The binary digits of n, found one by one. */
  function Digits(n: nat): Bits
    requires n < 256
  {
    var n6 := n - Digit(n >= 128, 128);
    var n5 := n6 - Digit(n6 >= 64, 64);
    var n4 := n5 - Digit(n5 >= 32, 32);
    var n3 := n4 - Digit(n4 >= 16, 16);
    var n2 := n3 - Digit(n3 >= 8, 8);
    var n1 := n2 - Digit(n2 >= 4, 4);
    var n0 := n1 - Digit(n1 >= 2, 2);
    Bits(n >= 128, n6 >= 64, n5 >= 32, n4 >= 16, n3 >= 8, n2 >= 4, n1 >= 2, n0 >= 1)
  }

  lemma NumberOfDigits(n: nat)
    requires n < 256
    ensures Number(Digits(n)) == n
  {}

  /** The number a byte stands for. */
  function Value(b: Byte): nat {
    Number(Unpack(b))
  }

  /** The byte that stands for n. */
  function ByteOf(n: nat): Byte
    requires n < 256
  {
    Pack(Digits(n))
  }

  lemma ValueOfByte(n: nat)
    requires n < 256
    ensures Value(ByteOf(n)) == n
  {
    UnpackPack(Digits(n));
    NumberOfDigits(n);
  }

  // ---------- messages ----------

  datatype Flags = Flags(bit8: bool, keepAlive: bool, liveEvents: bool, neware: bool,
                         installerMode: bool, bit3: bool, uploadDownload: bool, encrypt: bool)

  function FlagsByte(f: Flags): Byte {
    Pack(Bits(f.bit8, f.keepAlive, f.liveEvents, f.neware, f.installerMode, f.bit3, f.uploadDownload, f.encrypt))
  }

  function FlagsOf(b: Byte): Flags {
    var x := Unpack(b);
    Flags(x.b7, x.b6, x.b5, x.b4, x.b3, x.b2, x.b1, x.b0)
  }

  lemma FlagsRoundTrip(f: Flags)
    ensures FlagsOf(FlagsByte(f)) == f
  {
    UnpackPack(Bits(f.bit8, f.keepAlive, f.liveEvents, f.neware, f.installerMode, f.bit3, f.uploadDownload, f.encrypt));
  }

  /** The fields both kinds of header share, except the length, which is always rebuilt. An Enum field
      keeps any byte, named or not. */
  datatype Fields = Fields(messageType: Byte, flags: Flags, command: Byte, subCommand: Byte,
                           wt: Byte, sb: Byte, cryptorCode: Byte)

  datatype Message =
    | Request(fields: Fields, sequenceId: Byte, payload: seq<Byte>)
    | Response(fields: Fields, payload: seq<Byte>)

  /** What parsing returns: the length field and the rest. */
  datatype Parsed = Parsed(length: nat, message: Message)

  const SOF: Byte := 0xAA
  const FILL: Byte := 0xEE
  const HEADER_LENGTH := 16

  /** Bytes 10 to 15: the sequence id of a request, and the alignment. */
  function HeaderEnd(m: Message): (s: seq<Byte>)
    ensures |s| == 6
  {
    if m.Request? then [FILL, m.sequenceId, FILL, FILL, FILL, FILL] else [FILL, FILL, FILL, FILL, FILL, FILL]
  }

  function BuildHeader(m: Message): (s: seq<Byte>)
    requires |m.payload| < 0x10000
    ensures |s| == HEADER_LENGTH
  {
    [SOF, ByteOf(|m.payload| % 256), ByteOf(|m.payload| / 256), m.fields.messageType, FlagsByte(m.fields.flags),
     m.fields.command, m.fields.subCommand, m.fields.wt, m.fields.sb, m.fields.cryptorCode] + HeaderEnd(m)
  }

  /** `encrypt` and `decrypt`, from data and key; None where they raise. */
  datatype Cipher = Cipher(
    encrypt: (seq<Byte>, seq<Byte>) -> Option<seq<Byte>>, decrypt: (seq<Byte>, seq<Byte>) -> Option<seq<Byte>>)

  /** The cipher of paradox/lib/crypto.py: an empty key raises IndexError. */
  function Aes(t: Tables): Cipher {
    Cipher((m: seq<Byte>, k: seq<Byte>) => if k == [] then None else Some(Encrypt(t, m, k)),
           (c: seq<Byte>, k: seq<Byte>) => if k == [] then None else Some(Decrypt(t, c, k)))
  }

  /** The payload on the wire. */
  function BuildPayload(c: Cipher, payload: seq<Byte>, encrypted: bool, key: seq<Byte>): Option<seq<Byte>> {
    if encrypted then c.encrypt(payload, key) else Some(payload)
  }

  /** `build` of IPMessageRequest and IPMessageResponse; None where it raises. */
  function Build(c: Cipher, m: Message, key: seq<Byte>): Option<seq<Byte>> {
    if |m.payload| >= 0x10000 then None
    else
      match BuildPayload(c, m.payload, m.fields.flags.encrypt, key)
      case None => None
      case Some(body) => Some(BuildHeader(m) + body)
  }

  function FieldsOf(data: seq<Byte>): Fields
    requires |data| >= HEADER_LENGTH
  {
    Fields(data[3], FlagsOf(data[4]), data[5], data[6], data[7], data[8], data[9])
  }

  /** s[:n] in Python. */
  function Take(s: seq<Byte>, n: nat): seq<Byte> {
    if n <= |s| then s[..n] else s
  }

  /** The payload from the bytes after the header; None where parsing raises. */
  function ParsePayload(c: Cipher, body: seq<Byte>, length: nat, encrypted: bool, key: seq<Byte>): Option<seq<Byte>> {
    if !encrypted then
      if |body| < length then None else Some(body[..length])
    else if |body| % 16 != 0 then None
    else
      match c.decrypt(body, key)
      case None => None
      case Some(plain) => Some(Take(plain, length))
  }

  /** `parse`, of a request or of a response. */
  function Parse(c: Cipher, request: bool, data: seq<Byte>, key: seq<Byte>): Option<Parsed> {
    if |data| < HEADER_LENGTH || data[0] != SOF then None
    else
      var length := Value(data[1]) + 256 * Value(data[2]);
      var fields := FieldsOf(data);
      match ParsePayload(c, data[HEADER_LENGTH..], length, fields.flags.encrypt, key)
      case None => None
      case Some(payload) =>
        Some(Parsed(length, if request then Request(fields, data[11], payload) else Response(fields, payload)))
  }

  // ---------- what the cipher provides ----------

  /** A ciphertext is the plaintext rounded up to whole blocks, and decrypts to it with whatever whole
      blocks follow. */
  ghost predicate Restores(c: Cipher, m: seq<Byte>, key: seq<Byte>, more: seq<Byte>) {
    match c.encrypt(m, key)
    case None => false
    case Some(s) =>
      && |s| == (|m| + 15) / 16 * 16
      && (|more| % 16 == 0 ==> c.decrypt(s + more, key).Some? && m <= c.decrypt(s + more, key).value)
  }

  lemma LastChunk(m: seq<Byte>, more: seq<Byte>)
    requires |m| % 16 == 0 && |more| % 16 == 0 && more != []
    ensures |more| >= 16 && |more[..|more| - 16]| % 16 == 0
    ensures |m + more[..|more| - 16]| % 16 == 0 && |m + more| % 16 == 0
    ensures m + more == (m + more[..|more| - 16]) + more[|more| - 16..]
  {}

  /** More bytes after the ciphertext, as long as they are whole blocks, change nothing before them. */
  lemma {:induction false} MapChunksPrefix(f: seq<Byte> -> seq<Byte>, m: seq<Byte>, more: seq<Byte>)
    requires |m| % 16 == 0 && |more| % 16 == 0
    ensures |m + more| % 16 == 0 && MapChunks(f, m) <= MapChunks(f, m + more)
    decreases |more|
  {
    if more == [] {
      assert m + more == m;
    } else {
      LastChunk(m, more);
      var front, last := more[..|more| - 16], more[|more| - 16..];
      MapChunksPrefix(f, m, front);
      MapChunksAppend(f, m + front, last);
    }
  }

  lemma DecryptPrefix(t: Tables, rk: seq<Byte>, s: seq<Byte>, more: seq<Byte>)
    requires |rk| == 240 && |s| % 16 == 0 && |more| % 16 == 0
    ensures DecryptWith(t, rk, s) <= DecryptWith(t, rk, s + more)
  {
    WholeBlocks(s);
    WholeBlocks(s + more);
    MapChunksPrefix(DecryptChunk(t, rk), s, more);
  }

  lemma DecryptsToMessage(t: Tables, rk: seq<Byte>, m: seq<Byte>, more: seq<Byte>)
    requires Algebra(t) && |rk| == 240 && |more| % 16 == 0
    ensures m <= DecryptWith(t, rk, EncryptWith(t, rk, m) + more)
  {
    DecryptEncryptWith(t, rk, m);
    DecryptPrefix(t, rk, EncryptWith(t, rk, m), more);
    assert m <= Pad(m, 16);
  }

  lemma RestoresWith(c: Cipher, t: Tables, rk: seq<Byte>, m: seq<Byte>, key: seq<Byte>, more: seq<Byte>)
    requires Algebra(t) && |rk| == 240
    requires c.encrypt(m, key) == Some(EncryptWith(t, rk, m))
    requires var s := EncryptWith(t, rk, m) + more; c.decrypt(s, key) == Some(DecryptWith(t, rk, s))
    ensures Restores(c, m, key, more)
  {
    DecryptEncryptWith(t, rk, m);
    PadLength(m);
    if |more| % 16 == 0 {
      DecryptsToMessage(t, rk, m, more);
    }
  }

  lemma AesRestores(t: Tables, m: seq<Byte>, key: seq<Byte>, more: seq<Byte>)
    requires Algebra(t) && key != []
    ensures Restores(Aes(t), m, key, more)
  {
    RestoresWith(Aes(t), t, Schedule(t, key), m, key, more);
  }

  // ---------- the round trip ----------

  lemma SplitMessage(header: seq<Byte>, body: seq<Byte>, more: seq<Byte>)
    requires |header| == HEADER_LENGTH
    ensures var s := header + body + more; header <= s && s[HEADER_LENGTH..] == body + more
  {}

  lemma LengthRoundTrip(n: nat)
    requires n < 0x10000
    ensures Value(ByteOf(n % 256)) + 256 * Value(ByteOf(n / 256)) == n
  {
    ValueOfByte(n % 256);
    ValueOfByte(n / 256);
  }

  lemma HeaderBytes(header: seq<Byte>, data: seq<Byte>)
    requires |header| == HEADER_LENGTH && header <= data
    ensures data[0] == header[0] && data[1] == header[1] && data[2] == header[2] && data[11] == header[11]
    ensures FieldsOf(data) == FieldsOf(header)
  {}

  lemma HeaderRoundTrip(m: Message, data: seq<Byte>)
    requires |m.payload| < 0x10000 && BuildHeader(m) <= data
    ensures data[0] == SOF && Value(data[1]) + 256 * Value(data[2]) == |m.payload|
    ensures FieldsOf(data) == m.fields && (m.Request? ==> data[11] == m.sequenceId)
  {
    HeaderBytes(BuildHeader(m), data);
    LengthRoundTrip(|m.payload|);
    FlagsRoundTrip(m.fields.flags);
  }

  lemma WholeAndLoose(n: nat, s: seq<Byte>, more: seq<Byte>)
    requires |s| == (n + 15) / 16 * 16
    ensures |s + more| % 16 == |more| % 16
  {}

  lemma TakePrefix(m: seq<Byte>, p: seq<Byte>)
    requires m <= p
    ensures Take(p, |m|) == m
  {}

  lemma PayloadRoundTrip(c: Cipher, payload: seq<Byte>, encrypted: bool, key: seq<Byte>, more: seq<Byte>)
    requires encrypted ==> Restores(c, payload, key, more)
    ensures var body := BuildPayload(c, payload, encrypted, key);
      && body.Some?
      && ParsePayload(c, body.value + more, |payload|, encrypted, key)
         == if encrypted && |more| % 16 != 0 then None else Some(payload)
  {
    if encrypted {
      var s := c.encrypt(payload, key).value;
      WholeAndLoose(|payload|, s, more);
      if |more| % 16 == 0 {
        TakePrefix(payload, c.decrypt(s + more, key).value);
      }
    } else {
      assert (payload + more)[..|payload|] == payload;
    }
  }

  lemma ParseFrom(c: Cipher, m: Message, data: seq<Byte>, key: seq<Byte>, length: nat, body: seq<Byte>)
    requires |data| >= HEADER_LENGTH && data[0] == SOF && Value(data[1]) + 256 * Value(data[2]) == length
    requires FieldsOf(data) == m.fields && (m.Request? ==> data[11] == m.sequenceId)
    requires data[HEADER_LENGTH..] == body
    ensures Parse(c, m.Request?, data, key) ==
      match ParsePayload(c, body, length, m.fields.flags.encrypt, key)
      case None => None
      case Some(payload) => Some(Parsed(length, m.(payload := payload)))
  {}

  /** Parsing what was built and anything after it. */
  lemma ParseBuildWith(c: Cipher, m: Message, key: seq<Byte>, more: seq<Byte>)
    requires |m.payload| < 0x10000
    requires m.fields.flags.encrypt ==> Restores(c, m.payload, key, more)
    ensures Build(c, m, key).Some?
    ensures Parse(c, m.Request?, Build(c, m, key).value + more, key)
      == if m.fields.flags.encrypt && |more| % 16 != 0 then None else Some(Parsed(|m.payload|, m))
  {
    PayloadRoundTrip(c, m.payload, m.fields.flags.encrypt, key, more);
    var body := BuildPayload(c, m.payload, m.fields.flags.encrypt, key).value;
    SplitMessage(BuildHeader(m), body, more);
    HeaderRoundTrip(m, BuildHeader(m) + body + more);
    ParseFrom(c, m, BuildHeader(m) + body + more, key, |m.payload|, body + more);
  }

  lemma BuiltLengthWith(c: Cipher, m: Message, key: seq<Byte>, rounded: nat)
    requires c.encrypt(m.payload, key).Some? <==> key != []
    requires c.encrypt(m.payload, key).Some? ==> |c.encrypt(m.payload, key).value| == rounded
    ensures Build(c, m, key).Some? <==> |m.payload| <= 65535 && (m.fields.flags.encrypt ==> key != [])
    ensures Build(c, m, key).Some? ==>
      |Build(c, m, key).value| == 16 + if m.fields.flags.encrypt then rounded else |m.payload|
  {}

  /** Building succeeds exactly for payloads of at most 65535 bytes and, if they are to be encrypted, a
      key; the built length is 16 and the payload, rounded up to 16 when encrypted. */
  lemma BuiltLength(t: Tables, m: Message, key: seq<Byte>)
    requires Crypto.Standard(t)
    ensures Build(Aes(t), m, key).Some? <==> |m.payload| <= 65535 && (m.fields.flags.encrypt ==> key != [])
    ensures Build(Aes(t), m, key).Some? ==>
      |Build(Aes(t), m, key).value| == 16 + if m.fields.flags.encrypt then (|m.payload| + 15) / 16 * 16 else |m.payload|
  {
    Crypto.StandardAlgebra(t);
    if key != [] {
      DecryptEncrypt(t, m.payload, key);
    }
    BuiltLengthWith(Aes(t), m, key, (|m.payload| + 15) / 16 * 16);
  }

  /** Parsing a built message under the same key returns its header and payload. Whatever follows it in
      the same buffer is swallowed: any bytes after a plain message, whole blocks after an encrypted
      one. A loose end after an encrypted message makes the whole buffer unreadable. */
  lemma ParseBuild(t: Tables, m: Message, key: seq<Byte>, more: seq<Byte>)
    requires Crypto.Standard(t) && Build(Aes(t), m, key).Some?
    ensures Parse(Aes(t), m.Request?, Build(Aes(t), m, key).value + more, key)
      == if m.fields.flags.encrypt && |more| % 16 != 0 then None else Some(Parsed(|m.payload|, m))
  {
    Crypto.StandardAlgebra(t);
    if m.fields.flags.encrypt {
      AesRestores(t, m.payload, key, more);
    }
    ParseBuildWith(Aes(t), m, key, more);
  }
}
