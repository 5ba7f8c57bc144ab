/** IPv4 addresses as the STUN codec writes and reads them: dotted decimal text, the 32-bit number and
    its bytes (`ip_to_bytes`, `port_to_bytes` and the end of `read_mapped_address` of paradox/lib/stun.py). */
module DottedAddresses {
  import opened Wrappers

  // ---------- decimal text ----------

  const DIGITS := "0123456789"

  /** str(n) */
  function Decimal(n: nat): string {
    if n < 10 then [DIGITS[n]] else Decimal(n / 10) + [DIGITS[n % 10]]
  }

  predicate IsDigits(s: string) {
    s != "" && forall i | 0 <= i < |s| :: '0' <= s[i] <= '9'
  }

  /** int(s) for a text of digits; None for other text. */
  function FromDecimal(s: string): Option<nat> {
    if !IsDigits(s) then None
    else if |s| == 1 then Some(s[0] as nat - '0' as nat)
    else
      match FromDecimal(s[..|s| - 1])
      case None => None
      case Some(n) => Some(n * 10 + (s[|s| - 1] as nat - '0' as nat))
  }

  lemma DigitOf(d: nat)
    requires d < 10
    ensures '0' <= DIGITS[d] <= '9' && DIGITS[d] as nat - '0' as nat == d
  {}

  lemma AppendDigit(s: string, n: nat, d: nat)
    requires IsDigits(s) && FromDecimal(s) == Some(n) && d < 10
    ensures IsDigits(s + [DIGITS[d]]) && FromDecimal(s + [DIGITS[d]]) == Some(n * 10 + d)
  {
    DigitOf(d);
    assert (s + [DIGITS[d]])[..|s|] == s;
  }

  lemma TenTimes(n: nat)
    ensures n / 10 * 10 + n % 10 == n
  {}

  lemma {:induction false} DecimalRoundTrip(n: nat)
    ensures IsDigits(Decimal(n)) && FromDecimal(Decimal(n)) == Some(n)
  {
    if n < 10 {
      DigitOf(n);
    } else {
      DecimalRoundTrip(n / 10);
      AppendDigit(Decimal(n / 10), n / 10, n % 10);
      TenTimes(n);
    }
  }

  // ---------- dots ----------

  /** ".".join(parts) */
  function JoinDots(parts: seq<string>): string {
    if parts == [] then ""
    else if |parts| == 1 then parts[0]
    else parts[0] + "." + JoinDots(parts[1..])
  }

  /** s.split(".") */
  function SplitDots(s: string): (parts: seq<string>)
    ensures parts != []
  {
    if s == "" then [""]
    else if s[0] == '.' then [""] + SplitDots(s[1..])
    else
      var rest := SplitDots(s[1..]);
      [[s[0]] + rest[0]] + rest[1..]
  }

  lemma {:induction false} SplitPlain(s: string)
    requires '.' !in s
    ensures SplitDots(s) == [s]
  {
    if s != "" {
      assert s[0] in s && forall c | c in s[1..] :: c in s;
      SplitPlain(s[1..]);
      assert [s[0]] + s[1..] == s;
    }
  }

  lemma {:induction false} SplitFirst(s: string, rest: string)
    requires '.' !in s
    ensures SplitDots(s + "." + rest) == [s] + SplitDots(rest)
  {
    var all := s + "." + rest;
    if s == "" {
      assert all[1..] == rest;
    } else {
      assert s[0] in s && forall c | c in s[1..] :: c in s;
      assert all[0] == s[0] && all[1..] == s[1..] + "." + rest;
      SplitFirst(s[1..], rest);
      assert [s[0]] + s[1..] == s;
    }
  }

  lemma {:induction false} SplitJoin(parts: seq<string>)
    requires parts != [] && forall i | 0 <= i < |parts| :: '.' !in parts[i]
    ensures SplitDots(JoinDots(parts)) == parts
  {
    if |parts| == 1 {
      SplitPlain(parts[0]);
    } else {
      SplitJoin(parts[1..]);
      SplitFirst(parts[0], JoinDots(parts[1..]));
    }
  }

  // ---------- numbers and bytes ----------

  /** The bytes of a number, most significant first. */
  function BigBytes(n: nat): (s: seq<Byte>)
    ensures s != []
  {
    if n < 256 then [n as Byte] else BigBytes(n / 256) + [(n % 256) as Byte]
  }

  /** a2b_hex("%02x" % n): an odd number of digits raises. */
  function HexBytes(n: nat): Option<seq<Byte>> {
    if n >= 256 && BigBytes(n)[0] < 16 then None else Some(BigBytes(n))
  }

  /** The bytes of all parts, one after the other. */
  function PartsToBytes(parts: seq<string>): Option<seq<Byte>> {
    if parts == [] then Some([])
    else
      match FromDecimal(parts[0])
      case None => None
      case Some(n) =>
        match HexBytes(n)
        case None => None
        case Some(first) =>
          match PartsToBytes(parts[1..])
          case None => None
          case Some(rest) => Some(first + rest)
  }

  const COOKIE: bv32 := 0x2112A442

  /** struct.unpack("!I", s) */
  function AddressNumber(s: seq<Byte>): bv32
    requires |s| == 4
  {
    ((s[0] as bv32) << 24) | ((s[1] as bv32) << 16) | ((s[2] as bv32) << 8) | (s[3] as bv32)
  }

  /** a2b_hex("%08x" % a) */
  function AddressBytes(a: bv32): (s: seq<Byte>)
    ensures |s| == 4
  {
    [(a >> 24) as Byte, ((a >> 16) & 0xff) as Byte, ((a >> 8) & 0xff) as Byte, (a & 0xff) as Byte]
  }

  lemma AddressBytesOfNumber(s: seq<Byte>)
    requires |s| == 4
    ensures AddressBytes(AddressNumber(s)) == s
    ensures AddressBytes(AddressNumber(s) ^ COOKIE) == [s[0] ^ 0x21, s[1] ^ 0x12, s[2] ^ 0xA4, s[3] ^ 0x42]
  {}

  /** `ip_to_bytes`; None where it raises. */
  function IpToBytes(ip: string, xor: bool): (r: Option<seq<Byte>>)
    ensures r.Some? ==> |r.value| == 4
  {
    match PartsToBytes(SplitDots(ip))
    case None => None
    case Some(s) =>
      if |s| != 4 then None
      else Some(AddressBytes(if xor then AddressNumber(s) ^ COOKIE else AddressNumber(s)))
  }

  /** a2b_hex("%04x" % p) */
  function BytesOf(p: bv16): (s: seq<Byte>)
    ensures |s| == 2
  {
    [(p >> 8) as Byte, (p & 0xff) as Byte]
  }

  /** `port_to_bytes` of a 16-bit port. */
  function PortToBytes(port: bv16, xor: bool): (s: seq<Byte>)
    ensures |s| == 2
  {
    BytesOf(if xor then port ^ 0x2112 else port)
  }

  /** The text of an address. */
  function Dotted(octets: seq<Byte>): string {
    JoinDots(seq(|octets|, i requires 0 <= i < |octets| => Decimal(octets[i] as nat)))
  }

  // ---------- round trips ----------

  lemma DecimalHasNoDot(n: nat)
    ensures '.' !in Decimal(n)
  {
    DecimalRoundTrip(n);
  }

  lemma {:induction false} PartsOfDecimals(octets: seq<Byte>, parts: seq<string>)
    requires |parts| == |octets| && forall i | 0 <= i < |parts| :: parts[i] == Decimal(octets[i] as nat)
    ensures PartsToBytes(parts) == Some(octets)
    decreases |parts|
  {
    if parts != [] {
      DecimalRoundTrip(octets[0] as nat);
      assert HexBytes(octets[0] as nat) == Some([octets[0]]);
      PartsOfDecimals(octets[1..], parts[1..]);
      assert [octets[0]] + octets[1..] == octets;
    }
  }

  /** The text of four octets is encoded as these octets, exclusive-or'ed with the magic cookie or not. */
  lemma DottedToBytes(octets: seq<Byte>, xor: bool)
    requires |octets| == 4
    ensures IpToBytes(Dotted(octets), xor) == Some(
      if xor then [octets[0] ^ 0x21, octets[1] ^ 0x12, octets[2] ^ 0xA4, octets[3] ^ 0x42] else octets)
  {
    var parts := seq(|octets|, i requires 0 <= i < |octets| => Decimal(octets[i] as nat));
    forall i | 0 <= i < |parts|
      ensures '.' !in parts[i]
    {
      DecimalHasNoDot(octets[i] as nat);
    }
    SplitJoin(parts);
    PartsOfDecimals(octets, parts);
    AddressBytesOfNumber(octets);
  }

  /** The number that the two bytes of a port are read as. */
  function PortNumber(s: seq<Byte>): bv16
    requires |s| == 2
  {
    ((s[0] as bv16) << 8) | (s[1] as bv16)
  }

  lemma Halves(p: bv16)
    ensures ((((p >> 8) as Byte) as bv16) << 8) | (((p & 0xff) as Byte) as bv16) == p
  {}

  lemma PortRoundTrip(port: bv16, xor: bool)
    ensures PortNumber(PortToBytes(port, xor)) == if xor then port ^ 0x2112 else port
  {
    var p := if xor then port ^ 0x2112 else port;
    assert PortToBytes(port, xor) == BytesOf(p);
    BytesRoundTrip(p);
  }

  lemma BytesRoundTrip(p: bv16)
    ensures PortNumber(BytesOf(p)) == p
  {
    Halves(p);
  }

  lemma XorTwice(port: bv16)
    ensures (port ^ 0x2112) ^ 0x2112 == port
  {}

  lemma CookieTwice(octets: seq<Byte>)
    requires |octets| == 4
    ensures AddressBytes(AddressNumber(AddressBytes(AddressNumber(octets) ^ COOKIE)) ^ COOKIE) == octets
  {
    AddressBytesOfNumber(octets);
    AddressBytesOfNumber(AddressBytes(AddressNumber(octets) ^ COOKIE));
  }
}
