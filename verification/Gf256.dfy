/** Bytes as elements of GF(2^8), section 4 of FIPS 197. */
module Gf256 {
  import opened Wrappers

  /** Multiplication by {02}, section 4.2.1 of FIPS 197. */
  function Xtime(x: Byte): Byte {
    (x << 1) ^ (if x & 0x80 != 0 then 0x1b else 0)
  }

  /** The product a * x, section 4.2 of FIPS 197: the sum of x times each power of {02} present in a. */
  function Mul(a: Byte, x: Byte): Byte {
    var x1 := Xtime(x);
    var x2 := Xtime(x1);
    var x3 := Xtime(x2);
    var x4 := Xtime(x3);
    var x5 := Xtime(x4);
    var x6 := Xtime(x5);
    var x7 := Xtime(x6);
    (if a & 0x01 != 0 then x else 0) ^ (if a & 0x02 != 0 then x1 else 0) ^
    (if a & 0x04 != 0 then x2 else 0) ^ (if a & 0x08 != 0 then x3 else 0) ^
    (if a & 0x10 != 0 then x4 else 0) ^ (if a & 0x20 != 0 then x5 else 0) ^
    (if a & 0x40 != 0 then x6 else 0) ^ (if a & 0x80 != 0 then x7 else 0)
  }

  // The products with the four coefficients of InvMixColumns, section 5.3.3 of FIPS 197.

  function TimesE(x: Byte): Byte {
    Xor(Xor(Xtime(Xtime(Xtime(x))), Xtime(Xtime(x))), Xtime(x))
  }

  function TimesB(x: Byte): Byte {
    Xor(Xor(Xtime(Xtime(Xtime(x))), Xtime(x)), x)
  }

  function TimesD(x: Byte): Byte {
    Xor(Xor(Xtime(Xtime(Xtime(x))), Xtime(Xtime(x))), x)
  }

  function TimesNine(x: Byte): Byte {
    Xor(Xtime(Xtime(Xtime(x))), x)
  }

  lemma MulE(x: Byte)
    ensures Mul(0x0e, x) == TimesE(x)
  {}

  lemma MulB(x: Byte)
    ensures Mul(0x0b, x) == TimesB(x)
  {}

  lemma MulD(x: Byte)
    ensures Mul(0x0d, x) == TimesD(x)
  {}

  lemma MulNine(x: Byte)
    ensures Mul(0x09, x) == TimesNine(x)
  {}

  function Rotl(x: Byte, n: nat): Byte
    requires n <= 8
  {
    (x << n) | (x >> (8 - n))
  }

  /** The affine step of SubBytes, section 5.1.1 of FIPS 197. */
  function Affine(x: Byte): Byte {
    x ^ Rotl(x, 1) ^ Rotl(x, 2) ^ Rotl(x, 3) ^ Rotl(x, 4) ^ 0x63
  }

  /** SubBytes on one byte, section 5.1.1 of FIPS 197: the multiplicative inverse ({00} for {00}),
      then the affine step. */
  ghost predicate IsSubByte(x: Byte, s: Byte) {
    exists y :: (if x == 0 then y == 0 else Mul(x, y) == 1) && s == Affine(y)
  }

  /** Addition modulo 255 on bytes below 255. */
  function Add255(a: Byte, b: Byte): Byte {
    if b < 255 - a then a + b else a + b + 1
  }

  // ---------- addition ----------

  /** Addition in GF(2^8). It has a name of its own so that proofs can treat a sum as one term. */
  function Xor(a: Byte, b: Byte): Byte {
    a ^ b
  }

  function Xor4(a: Byte, b: Byte, c: Byte, d: Byte): Byte {
    Xor(Xor(Xor(a, b), c), d)
  }

  lemma XorComm(p: Byte, q: Byte)
    ensures Xor(p, q) == Xor(q, p)
  {}

  lemma XorAssoc(p: Byte, q: Byte, r: Byte)
    ensures Xor(Xor(p, q), r) == Xor(p, Xor(q, r))
  {}

  lemma XorCancel(p: Byte, q: Byte)
    ensures Xor(Xor(p, q), q) == p
  {}

  lemma XorZero(p: Byte)
    ensures Xor(p, 0) == p && Xor(0, p) == p && Xor(p, p) == 0
  {}

  lemma SwapTwo(p: Byte, q: Byte, r: Byte, s: Byte)
    ensures Xor(Xor(p, q), Xor(r, s)) == Xor(Xor(p, r), Xor(q, s))
  {
    XorAssoc(p, q, Xor(r, s));
    XorAssoc(q, r, s);
    XorComm(q, r);
    XorAssoc(r, q, s);
    XorAssoc(p, r, Xor(q, s));
  }

  lemma DropMiddle(p: Byte, q: Byte, r: Byte)
    ensures Xor(Xor(p, q), Xor(q, r)) == Xor(p, r)
  {
    XorAssoc(Xor(p, q), q, r);
    XorCancel(p, q);
  }

  lemma DropLeft(p: Byte, q: Byte, r: Byte)
    ensures Xor(Xor(p, q), Xor(p, r)) == Xor(q, r)
  {
    XorComm(p, q);
    DropMiddle(q, p, r);
  }

  lemma SandwichZero(u: Byte, v: Byte)
    ensures Xor(Xor(u, Xor(v, u)), v) == 0
  {
    XorComm(v, u);
    XorAssoc(u, u, v);
    XorZero(u);
    XorZero(v);
  }

  lemma SwapFour(x1: Byte, x2: Byte, x3: Byte, x4: Byte, y1: Byte, y2: Byte, y3: Byte, y4: Byte)
    ensures Xor(Xor4(x1, x2, x3, x4), Xor4(y1, y2, y3, y4)) ==
            Xor4(Xor(x1, y1), Xor(x2, y2), Xor(x3, y3), Xor(x4, y4))
  {
    SwapTwo(Xor(Xor(x1, x2), x3), x4, Xor(Xor(y1, y2), y3), y4);
    SwapTwo(Xor(x1, x2), x3, Xor(y1, y2), y3);
    SwapTwo(x1, x2, y1, y2);
  }

  // ---------- additive maps ----------

  ghost predicate AdditiveAt(f: Byte -> Byte, x: Byte, y: Byte) {
    f(Xor(x, y)) == Xor(f(x), f(y))
  }

  /** `f` is a linear map of GF(2)-vectors. */
  ghost predicate Additive(f: Byte -> Byte) {
    forall x, y :: AdditiveAt(f, x, y)
  }

  lemma XtimeAdditiveAt(x: Byte, y: Byte)
    ensures Xtime(Xor(x, y)) == Xor(Xtime(x), Xtime(y))
  {
    if x & 0x80 == 0 {
      if y & 0x80 == 0 {} else {}
    } else {
      if y & 0x80 == 0 {} else {}
    }
  }

  lemma AdditiveFour(f: Byte -> Byte, x: Byte, y: Byte, z: Byte, w: Byte)
    requires Additive(f)
    ensures f(Xor4(x, y, z, w)) == Xor4(f(x), f(y), f(z), f(w))
  {
    assert AdditiveAt(f, x, y);
    assert AdditiveAt(f, Xor(x, y), z);
    assert AdditiveAt(f, Xor(Xor(x, y), z), w);
  }
}
