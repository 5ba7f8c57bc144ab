/** What the constant tables of paradox/lib/crypto.py contain, in terms of GF(2^8) arithmetic.
    The empty branches on bits of the argument only tell the solver which case split to try first. */
module TableFacts {
  import opened Wrappers
  import opened Gf256
  import opened CryptoTables

  lemma XtimeTblIsXtime(x: Byte)
    ensures XtimeTbl(x) == Xtime(x)
  {}

  lemma InvSBoxInverts(x: Byte)
    ensures InvSBox(SBox(x)) == x
  {}

  lemma LogBelow255(x: Byte)
    ensures LogTable(x) < 255
  {}

  /** The inverse of the affine step. */
  function AffineInv(x: Byte): Byte {
    Rotl(x, 1) ^ Rotl(x, 3) ^ Rotl(x, 6) ^ 0x05
  }

  lemma AffineAffineInv(s: Byte)
    ensures Affine(AffineInv(s)) == s
  {}

  lemma SBoxInverse(x: Byte)
    requires x != 0
    ensures Mul(x, AffineInv(SBox(x))) == 1
  {
    if x & 0x80 == 0 {
      if x & 0x40 == 0 { if x & 0x20 == 0 {} else {} } else { if x & 0x20 == 0 {} else {} }
    } else {
      if x & 0x40 == 0 { if x & 0x20 == 0 {} else {} } else { if x & 0x20 == 0 {} else {} }
    }
  }

  lemma InverseOfSBox(x: Byte, y: Byte)
    requires y == AffineInv(SBox(x))
    ensures if x == 0 then y == 0 else Mul(x, y) == 1
  {
    if x != 0 {
      SBoxInverse(x);
    }
  }

  lemma SubByteFrom(x: Byte, s: Byte, y: Byte)
    requires (if x == 0 then y == 0 else Mul(x, y) == 1) && Affine(y) == s
    ensures IsSubByte(x, s)
  {}

  /** Table `S` is the substitution of section 5.1.1 of FIPS 197, for every byte. */
  lemma SBoxIsSubByte(x: Byte)
    ensures IsSubByte(x, SBox(x))
  {
    InverseOfSBox(x, AffineInv(SBox(x)));
    AffineAffineInv(SBox(x));
    SubByteFrom(x, SBox(x), AffineInv(SBox(x)));
  }

  lemma LogsOfCoefficients()
    ensures LogTable(0x0e) == 0xdf && LogTable(0x0b) == 0x68 && LogTable(0x0d) == 0xee && LogTable(0x09) == 0xc7
  {}

  // Adding logarithms modulo 255 multiplies by each of the four coefficients of InvMixColumns.

  lemma PowerE(x: Byte, l: Byte, r: Byte)
    requires x != 0 && l == LogTable(x) && r == AlogTable(Add255(0xdf, l))
    ensures r == TimesE(x)
  {
    if x & 0x80 == 0 {
      if x & 0x40 == 0 { if x & 0x20 == 0 {} else {} } else { if x & 0x20 == 0 {} else {} }
    } else {
      if x & 0x40 == 0 { if x & 0x20 == 0 {} else {} } else { if x & 0x20 == 0 {} else {} }
    }
  }

  lemma ProductE(x: Byte)
    requires x != 0
    ensures AlogTable(Add255(LogTable(0x0e), LogTable(x))) == Mul(0x0e, x)
  {
    LogsOfCoefficients();
    MulE(x);
    PowerE(x, LogTable(x), AlogTable(Add255(0xdf, LogTable(x))));
  }

  lemma PowerB(x: Byte, l: Byte, r: Byte)
    requires x != 0 && l == LogTable(x) && r == AlogTable(Add255(0x68, l))
    ensures r == TimesB(x)
  {
    if x & 0x80 == 0 {
      if x & 0x40 == 0 { if x & 0x20 == 0 {} else {} } else { if x & 0x20 == 0 {} else {} }
    } else {
      if x & 0x40 == 0 { if x & 0x20 == 0 {} else {} } else { if x & 0x20 == 0 {} else {} }
    }
  }

  lemma ProductB(x: Byte)
    requires x != 0
    ensures AlogTable(Add255(LogTable(0x0b), LogTable(x))) == Mul(0x0b, x)
  {
    LogsOfCoefficients();
    MulB(x);
    PowerB(x, LogTable(x), AlogTable(Add255(0x68, LogTable(x))));
  }

  lemma PowerD(x: Byte, l: Byte, r: Byte)
    requires x != 0 && l == LogTable(x) && r == AlogTable(Add255(0xee, l))
    ensures r == TimesD(x)
  {
    if x & 0x80 == 0 {
      if x & 0x40 == 0 { if x & 0x20 == 0 {} else {} } else { if x & 0x20 == 0 {} else {} }
    } else {
      if x & 0x40 == 0 { if x & 0x20 == 0 {} else {} } else { if x & 0x20 == 0 {} else {} }
    }
  }

  lemma ProductD(x: Byte)
    requires x != 0
    ensures AlogTable(Add255(LogTable(0x0d), LogTable(x))) == Mul(0x0d, x)
  {
    LogsOfCoefficients();
    MulD(x);
    PowerD(x, LogTable(x), AlogTable(Add255(0xee, LogTable(x))));
  }

  lemma PowerNine(x: Byte, l: Byte, r: Byte)
    requires x != 0 && l == LogTable(x) && r == AlogTable(Add255(0xc7, l))
    ensures r == TimesNine(x)
  {
    if x & 0x80 == 0 {
      if x & 0x40 == 0 { if x & 0x20 == 0 {} else {} } else { if x & 0x20 == 0 {} else {} }
    } else {
      if x & 0x40 == 0 { if x & 0x20 == 0 {} else {} } else { if x & 0x20 == 0 {} else {} }
    }
  }

  lemma ProductNine(x: Byte)
    requires x != 0
    ensures AlogTable(Add255(LogTable(0x09), LogTable(x))) == Mul(0x09, x)
  {
    LogsOfCoefficients();
    MulNine(x);
    PowerNine(x, LogTable(x), AlogTable(Add255(0xc7, LogTable(x))));
  }

  // Add255 agrees with the integer arithmetic of the source. How bytes are converted is a parameter, so
  // that remainders and bits are never reasoned about together.

  datatype Numbers = Numbers(nat8: Byte -> nat, nat16: bv16 -> nat, byte: nat -> Byte)

  function Native(): Numbers {
    Numbers((b: Byte) => b as int, (s: bv16) => s as int, (n: nat) => if n < 256 then n as Byte else 0)
  }

  /** The sum of two logarithms modulo 255. */
  function SumOfLogs(num: Numbers, a: Byte, b: Byte): Byte {
    num.byte((num.nat8(a) + num.nat8(b)) % 255)
  }

  function Reduced(s: bv16): bv16 {
    if s < 255 then s else s - 255
  }

  ghost predicate Converts(num: Numbers) {
    && (forall a, b :: Widens(num, a, b))
    && (forall s | s < 510 :: Reduces(num, s))
    && (forall c :: Narrows(num, c))
  }

  ghost predicate Widens(num: Numbers, a: Byte, b: Byte) {
    num.nat16(a as bv16 + b as bv16) == num.nat8(a) + num.nat8(b)
  }

  ghost predicate Reduces(num: Numbers, s: bv16) {
    num.nat16(s) < 510 && num.nat16(Reduced(s)) == if num.nat16(s) < 255 then num.nat16(s) else num.nat16(s) - 255
  }

  ghost predicate Narrows(num: Numbers, c: Byte) {
    num.nat8(c) == num.nat16(c as bv16) && num.byte(num.nat8(c)) == c
  }

  lemma NativeConverts()
    ensures Converts(Native())
  {
    forall s: bv16 | s < 510
      ensures Reduces(Native(), s)
    {
      NativeReduces(s);
    }
  }

  lemma NativeReduces(s: bv16)
    requires s < 510
    ensures Reduces(Native(), s)
  {
    if s < 255 {} else {}
  }

  lemma Add255Reduces(a: Byte, b: Byte)
    requires a < 255 && b < 255
    ensures a as bv16 + b as bv16 < 510 && Add255(a, b) as bv16 == Reduced(a as bv16 + b as bv16)
  {}

  lemma Remainder(n: nat, m: nat)
    requires n < 510 && m == (if n < 255 then n else n - 255)
    ensures m == n % 255
  {}

  lemma SumOfLogsIsAdd255(num: Numbers, a: Byte, b: Byte)
    requires Converts(num) && a < 255 && b < 255
    ensures SumOfLogs(num, a, b) == Add255(a, b)
  {
    var c := Add255(a, b);
    Add255Reduces(a, b);
    assert Widens(num, a, b) && Reduces(num, a as bv16 + b as bv16) && Narrows(num, c);
    Remainder(num.nat8(a) + num.nat8(b), num.nat8(c));
  }
}
