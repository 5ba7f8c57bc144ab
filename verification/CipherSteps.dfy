/** The round steps of `encrypt` and `decrypt` (paradox/lib/crypto.py) on one 16-byte block, over
    any tables with the right algebra, and their inverses. */
module CipherSteps {
  import opened Wrappers
  import opened Gf256

  /** The module-level tables the steps look bytes up in. */
  datatype Tables = Tables(
    s: Byte -> Byte, si: Byte -> Byte, xt: Byte -> Byte,
    e: Byte -> Byte, b: Byte -> Byte, d: Byte -> Byte, nine: Byte -> Byte,
    rcon: seq<Byte>)

  /** All that decryption needs of the tables: `si` undoes `s`, `xt` is additive, and the four
      InvMixColumns tables are the polynomials 0E, 0B, 0D and 09 in `xt`. */
  ghost predicate Algebra(t: Tables) {
    && Additive(t.xt)
    && forall x :: AlgebraAt(t, x)
  }

  ghost predicate AlgebraAt(t: Tables, x: Byte) {
    var x1 := t.xt(x);
    var x2 := t.xt(x1);
    var x3 := t.xt(x2);
    && t.si(t.s(x)) == x
    && t.e(x) == Xor(Xor(x3, x2), x1)
    && t.b(x) == Xor(Xor(x3, x1), x)
    && t.d(x) == Xor(Xor(x3, x2), x)
    && t.nine(x) == Xor(x3, x)
  }

  /** The 16-tuple `a` of the source, in its own order: four rows of four bytes. */
  datatype Block = Block(
    a0: Byte, a1: Byte, a2: Byte, a3: Byte,
    a4: Byte, a5: Byte, a6: Byte, a7: Byte,
    a8: Byte, a9: Byte, a10: Byte, a11: Byte,
    a12: Byte, a13: Byte, a14: Byte, a15: Byte)

  /** The 16 bytes of `s` from `o` on. */
  function LoadAt(s: seq<Byte>, o: nat): Block
    requires o + 16 <= |s|
  {
    Block(s[o], s[o + 1], s[o + 2], s[o + 3], s[o + 4], s[o + 5], s[o + 6], s[o + 7],
          s[o + 8], s[o + 9], s[o + 10], s[o + 11], s[o + 12], s[o + 13], s[o + 14], s[o + 15])
  }

  function Load(s: seq<Byte>): Block
    requires |s| == 16
  {
    LoadAt(s, 0)
  }

  function Store(a: Block): (s: seq<Byte>)
    ensures |s| == 16
  {
    [a.a0, a.a1, a.a2, a.a3, a.a4, a.a5, a.a6, a.a7,
     a.a8, a.a9, a.a10, a.a11, a.a12, a.a13, a.a14, a.a15]
  }

  function MapBlock(f: Byte -> Byte, a: Block): Block {
    Block(f(a.a0), f(a.a1), f(a.a2), f(a.a3),
          f(a.a4), f(a.a5), f(a.a6), f(a.a7),
          f(a.a8), f(a.a9), f(a.a10), f(a.a11),
          f(a.a12), f(a.a13), f(a.a14), f(a.a15))
  }

  function AddKey(a: Block, k: Block): Block {
    Block(Xor(a.a0, k.a0), Xor(a.a1, k.a1), Xor(a.a2, k.a2), Xor(a.a3, k.a3),
          Xor(a.a4, k.a4), Xor(a.a5, k.a5), Xor(a.a6, k.a6), Xor(a.a7, k.a7),
          Xor(a.a8, k.a8), Xor(a.a9, k.a9), Xor(a.a10, k.a10), Xor(a.a11, k.a11),
          Xor(a.a12, k.a12), Xor(a.a13, k.a13), Xor(a.a14, k.a14), Xor(a.a15, k.a15))
  }

  function ShiftRow(a: Block): Block {
    Block(a.a0, a.a1, a.a2, a.a3,
          a.a5, a.a6, a.a7, a.a4,
          a.a10, a.a11, a.a8, a.a9,
          a.a15, a.a12, a.a13, a.a14)
  }

  function InvShiftRow(a: Block): Block {
    Block(a.a0, a.a1, a.a2, a.a3,
          a.a7, a.a4, a.a5, a.a6,
          a.a10, a.a11, a.a8, a.a9,
          a.a13, a.a14, a.a15, a.a12)
  }

  /** One byte of "Mix Column": x and y are vertical neighbours, tmp the sum of their column. */
  function MixByte(t: Tables, x: Byte, y: Byte, tmp: Byte): Byte {
    Xor(x, Xor(t.xt(Xor(x, y)), tmp))
  }

  function MixColumn(t: Tables, a: Block): Block {
    var tmp0 := Xor4(a.a0, a.a4, a.a8, a.a12);
    var tmp1 := Xor4(a.a1, a.a5, a.a9, a.a13);
    var tmp2 := Xor4(a.a2, a.a6, a.a10, a.a14);
    var tmp3 := Xor4(a.a3, a.a7, a.a11, a.a15);
    Block(MixByte(t, a.a0, a.a4, tmp0), MixByte(t, a.a1, a.a5, tmp1),
          MixByte(t, a.a2, a.a6, tmp2), MixByte(t, a.a3, a.a7, tmp3),
          MixByte(t, a.a4, a.a8, tmp0), MixByte(t, a.a5, a.a9, tmp1),
          MixByte(t, a.a6, a.a10, tmp2), MixByte(t, a.a7, a.a11, tmp3),
          MixByte(t, a.a8, a.a12, tmp0), MixByte(t, a.a9, a.a13, tmp1),
          MixByte(t, a.a10, a.a14, tmp2), MixByte(t, a.a11, a.a15, tmp3),
          MixByte(t, a.a12, a.a0, tmp0), MixByte(t, a.a13, a.a1, tmp1),
          MixByte(t, a.a14, a.a2, tmp2), MixByte(t, a.a15, a.a3, tmp3))
  }

  function InvMixByte(t: Tables, x: Byte, y: Byte, z: Byte, w: Byte): Byte {
    Xor4(t.e(x), t.b(y), t.d(z), t.nine(w))
  }

  function InvMixColumn(t: Tables, a: Block): Block {
    Block(InvMixByte(t, a.a0, a.a4, a.a8, a.a12), InvMixByte(t, a.a1, a.a5, a.a9, a.a13),
          InvMixByte(t, a.a2, a.a6, a.a10, a.a14), InvMixByte(t, a.a3, a.a7, a.a11, a.a15),
          InvMixByte(t, a.a4, a.a8, a.a12, a.a0), InvMixByte(t, a.a5, a.a9, a.a13, a.a1),
          InvMixByte(t, a.a6, a.a10, a.a14, a.a2), InvMixByte(t, a.a7, a.a11, a.a15, a.a3),
          InvMixByte(t, a.a8, a.a12, a.a0, a.a4), InvMixByte(t, a.a9, a.a13, a.a1, a.a5),
          InvMixByte(t, a.a10, a.a14, a.a2, a.a6), InvMixByte(t, a.a11, a.a15, a.a3, a.a7),
          InvMixByte(t, a.a12, a.a0, a.a4, a.a8), InvMixByte(t, a.a13, a.a1, a.a5, a.a9),
          InvMixByte(t, a.a14, a.a2, a.a6, a.a10), InvMixByte(t, a.a15, a.a3, a.a7, a.a11))
  }

  /** Rounds 1 to 13 of `encrypt`. */
  function Round(t: Tables, a: Block, k: Block): Block {
    AddKey(MixColumn(t, ShiftRow(MapBlock(t.s, a))), k)
  }

  /** Round 14 of `encrypt`. */
  function LastRound(t: Tables, a: Block, k: Block): Block {
    AddKey(ShiftRow(MapBlock(t.s, a)), k)
  }

  /** Rounds 13 to 1 of `decrypt`. */
  function InvRound(t: Tables, a: Block, k: Block): Block {
    InvShiftRow(MapBlock(t.si, InvMixColumn(t, AddKey(a, k))))
  }

  /** Round 14 of `decrypt`. */
  function InvLastRound(t: Tables, a: Block, k: Block): Block {
    InvShiftRow(MapBlock(t.si, AddKey(a, k)))
  }

  // ---------- inverses of the easy steps ----------

  lemma AddKeyTwice(a: Block, k: Block)
    ensures AddKey(AddKey(a, k), k) == a
  {
    XorCancel(a.a0, k.a0); XorCancel(a.a1, k.a1); XorCancel(a.a2, k.a2); XorCancel(a.a3, k.a3);
    XorCancel(a.a4, k.a4); XorCancel(a.a5, k.a5); XorCancel(a.a6, k.a6); XorCancel(a.a7, k.a7);
    XorCancel(a.a8, k.a8); XorCancel(a.a9, k.a9); XorCancel(a.a10, k.a10); XorCancel(a.a11, k.a11);
    XorCancel(a.a12, k.a12); XorCancel(a.a13, k.a13); XorCancel(a.a14, k.a14); XorCancel(a.a15, k.a15);
  }

  lemma SubShiftInverse(t: Tables, a: Block)
    requires Algebra(t)
    ensures InvShiftRow(MapBlock(t.si, ShiftRow(MapBlock(t.s, a)))) == a
  {
    assert AlgebraAt(t, a.a0) && AlgebraAt(t, a.a1) && AlgebraAt(t, a.a2) && AlgebraAt(t, a.a3);
    assert AlgebraAt(t, a.a4) && AlgebraAt(t, a.a5) && AlgebraAt(t, a.a6) && AlgebraAt(t, a.a7);
    assert AlgebraAt(t, a.a8) && AlgebraAt(t, a.a9) && AlgebraAt(t, a.a10) && AlgebraAt(t, a.a11);
    assert AlgebraAt(t, a.a12) && AlgebraAt(t, a.a13) && AlgebraAt(t, a.a14) && AlgebraAt(t, a.a15);
  }

  // ---------- InvMixColumn undoes MixColumn ----------

  lemma RotateFour(x: Byte, y: Byte, z: Byte, w: Byte)
    ensures Xor4(x, y, z, w) == Xor4(w, x, y, z)
  {
    XorComm(Xor(Xor(x, y), z), w);
    XorAssoc(w, Xor(x, y), z);
    XorAssoc(w, x, y);
  }

  /** The sum of a 4 by 4 array, by rows or by columns. */
  lemma TransposeSum(
    e1: Byte, e2: Byte, e3: Byte, e4: Byte, b1: Byte, b2: Byte, b3: Byte, b4: Byte,
    d1: Byte, d2: Byte, d3: Byte, d4: Byte, n1: Byte, n2: Byte, n3: Byte, n4: Byte)
    ensures Xor4(Xor4(e1, e2, e3, e4), Xor4(b1, b2, b3, b4), Xor4(d1, d2, d3, d4), Xor4(n1, n2, n3, n4)) ==
            Xor4(Xor4(e1, b1, d1, n1), Xor4(e2, b2, d2, n2), Xor4(e3, b3, d3, n3), Xor4(e4, b4, d4, n4))
  {
    SwapFour(e1, e2, e3, e4, b1, b2, b3, b4);
    SwapFour(Xor(e1, b1), Xor(e2, b2), Xor(e3, b3), Xor(e4, b4), d1, d2, d3, d4);
    SwapFour(Xor(Xor(e1, b1), d1), Xor(Xor(e2, b2), d2), Xor(Xor(e3, b3), d3), Xor(Xor(e4, b4), d4),
             n1, n2, n3, n4);
  }

  /** MixByte of a column, multiplied out: {02} x + {03} y + z + w. */
  lemma MixByteForm(t: Tables, x: Byte, y: Byte, z: Byte, w: Byte)
    requires Additive(t.xt)
    ensures MixByte(t, x, y, Xor4(x, y, z, w)) == Xor4(t.xt(x), Xor(t.xt(y), y), z, w)
  {
    assert AdditiveAt(t.xt, x, y);
    MixSum(x, y, z, w, t.xt(x), t.xt(y));
  }

  lemma MixSum(x: Byte, y: Byte, z: Byte, w: Byte, fx: Byte, fy: Byte)
    ensures Xor(x, Xor(Xor(fx, fy), Xor4(x, y, z, w))) == Xor4(fx, Xor(fy, y), z, w)
  {
    XorAssoc(Xor(x, y), z, w);
    XorAssoc(x, y, Xor(z, w));
    XorAssoc(fx, fy, Xor4(x, y, z, w));
    XorAssoc(fx, Xor(fy, y), z);
    XorAssoc(fx, Xor(Xor(fy, y), z), w);
    XorAssoc(Xor(fy, y), z, w);
    XorAssoc(fy, y, Xor(z, w));
    assert Xor(x, Xor(Xor(fx, fy), Xor(x, Xor(y, Xor(z, w))))) == Xor(Xor(fx, fy), Xor(y, Xor(z, w))) by {
      XorComm(x, Xor(Xor(fx, fy), Xor(x, Xor(y, Xor(z, w)))));
      XorComm(x, Xor(y, Xor(z, w)));
      XorAssoc(Xor(fx, fy), Xor(y, Xor(z, w)), x);
      XorCancel(Xor(Xor(fx, fy), Xor(y, Xor(z, w))), x);
    }
    XorAssoc(fx, fy, Xor(y, Xor(z, w)));
  }

  lemma TablesAdditiveAt(t: Tables, x: Byte, y: Byte)
    requires Algebra(t)
    ensures AdditiveAt(t.e, x, y) && AdditiveAt(t.b, x, y) && AdditiveAt(t.d, x, y) && AdditiveAt(t.nine, x, y)
  {
    var x1, y1 := t.xt(x), t.xt(y);
    var x2, y2 := t.xt(x1), t.xt(y1);
    var x3, y3 := t.xt(x2), t.xt(y2);
    assert AdditiveAt(t.xt, x, y) && AdditiveAt(t.xt, x1, y1) && AdditiveAt(t.xt, x2, y2);
    assert AlgebraAt(t, x) && AlgebraAt(t, y) && AlgebraAt(t, Xor(x, y));
    SwapTwo(x3, y3, x2, y2);
    SwapTwo(x3, y3, x1, y1);
    SwapTwo(x3, y3, x, y);
    SwapTwo(Xor(x3, x2), Xor(y3, y2), x1, y1);
    SwapTwo(Xor(x3, x2), Xor(y3, y2), x, y);
    SwapTwo(Xor(x3, x1), Xor(y3, y1), x, y);
  }

  lemma TablesAdditive(t: Tables)
    requires Algebra(t)
    ensures Additive(t.e) && Additive(t.b) && Additive(t.d) && Additive(t.nine)
  {
    forall x: Byte, y: Byte
      ensures AdditiveAt(t.e, x, y) && AdditiveAt(t.b, x, y) && AdditiveAt(t.d, x, y) && AdditiveAt(t.nine, x, y)
    {
      TablesAdditiveAt(t, x, y);
    }
  }

  // What each of the four bytes of a column contributes to the first byte of InvMix(Mix(column));
  // x0 is the byte and x1 to x4 are its products with the first four powers of {02}.

  lemma SumOfFirst(x0: Byte, x1: Byte, x2: Byte, x3: Byte, x4: Byte)
    ensures Xor4(Xor(Xor(x4, x3), x2), Xor(Xor(x3, x1), x0), Xor(Xor(x3, x2), x0),
                 Xor(Xor(x4, x1), Xor(x3, x0))) == x0
  {}

  lemma SumOfSecond(x0: Byte, x1: Byte, x2: Byte, x3: Byte, x4: Byte)
    ensures Xor4(Xor(Xor(Xor(x4, x3), x2), Xor(Xor(x3, x2), x1)), Xor(Xor(x4, x2), x1),
                 Xor(Xor(x3, x2), x0), Xor(x3, x0)) == 0
  {}

  lemma SumOfThird(x0: Byte, x1: Byte, x2: Byte, x3: Byte, x4: Byte)
    ensures Xor4(Xor(Xor(x3, x2), x1), Xor(Xor(Xor(x4, x2), x1), Xor(Xor(x3, x1), x0)),
                 Xor(Xor(x4, x3), x1), Xor(x3, x0)) == 0
  {}

  lemma SumOfFourth(x0: Byte, x1: Byte, x2: Byte, x3: Byte, x4: Byte)
    ensures Xor4(Xor(Xor(x3, x2), x1), Xor(Xor(x3, x1), x0),
                 Xor(Xor(Xor(x4, x3), x1), Xor(Xor(x3, x2), x0)), Xor(x4, x1)) == 0
  {
    SwapTwo(Xor(x3, x2), x1, Xor(x3, x1), x0);
    DropLeft(x3, x2, x1);
    DropMiddle(x2, x1, x0);
    SwapTwo(Xor(x4, x3), x1, Xor(x3, x2), x0);
    DropMiddle(x4, x3, x2);
    SwapTwo(x4, x2, x1, x0);
    SandwichZero(Xor(x2, x0), Xor(x4, x1));
  }

  lemma ContributionOfFirst(t: Tables, x: Byte)
    requires Algebra(t)
    ensures Xor4(t.e(t.xt(x)), t.b(x), t.d(x), t.nine(Xor(t.xt(x), x))) == x
  {
    var x1 := t.xt(x);
    assert t.nine(Xor(x1, x)) == Xor(t.nine(x1), t.nine(x)) by {
      TablesAdditiveAt(t, x1, x);
    }
    assert AlgebraAt(t, x) && AlgebraAt(t, x1);
    var x2 := t.xt(x1);
    var x3 := t.xt(x2);
    SumOfFirst(x, x1, x2, x3, t.xt(x3));
  }

  lemma ContributionOfSecond(t: Tables, x: Byte)
    requires Algebra(t)
    ensures Xor4(t.e(Xor(t.xt(x), x)), t.b(t.xt(x)), t.d(x), t.nine(x)) == 0
  {
    var x1 := t.xt(x);
    assert t.e(Xor(x1, x)) == Xor(t.e(x1), t.e(x)) by {
      TablesAdditiveAt(t, x1, x);
    }
    assert AlgebraAt(t, x) && AlgebraAt(t, x1);
    var x2 := t.xt(x1);
    var x3 := t.xt(x2);
    SumOfSecond(x, x1, x2, x3, t.xt(x3));
  }

  lemma ContributionOfThird(t: Tables, x: Byte)
    requires Algebra(t)
    ensures Xor4(t.e(x), t.b(Xor(t.xt(x), x)), t.d(t.xt(x)), t.nine(x)) == 0
  {
    var x1 := t.xt(x);
    assert t.b(Xor(x1, x)) == Xor(t.b(x1), t.b(x)) by {
      TablesAdditiveAt(t, x1, x);
    }
    assert AlgebraAt(t, x) && AlgebraAt(t, x1);
    var x2 := t.xt(x1);
    var x3 := t.xt(x2);
    SumOfThird(x, x1, x2, x3, t.xt(x3));
  }

  lemma ContributionOfFourth(t: Tables, x: Byte)
    requires Algebra(t)
    ensures Xor4(t.e(x), t.b(x), t.d(Xor(t.xt(x), x)), t.nine(t.xt(x))) == 0
  {
    var x1 := t.xt(x);
    assert t.d(Xor(x1, x)) == Xor(t.d(x1), t.d(x)) by {
      TablesAdditiveAt(t, x1, x);
    }
    assert AlgebraAt(t, x) && AlgebraAt(t, x1);
    var x2 := t.xt(x1);
    var x3 := t.xt(x2);
    SumOfFourth(x, x1, x2, x3, t.xt(x3));
  }

  lemma InvMixUndoesMix(t: Tables, x: Byte, y: Byte, z: Byte, w: Byte)
    requires Algebra(t)
    ensures InvMixByte(t,
              Xor4(t.xt(x), Xor(t.xt(y), y), z, w), Xor4(t.xt(y), Xor(t.xt(z), z), w, x),
              Xor4(t.xt(z), Xor(t.xt(w), w), x, y), Xor4(t.xt(w), Xor(t.xt(x), x), y, z)) == x
  {
    TablesAdditive(t);
    var fx, fy, fz, fw := t.xt(x), t.xt(y), t.xt(z), t.xt(w);
    AdditiveFour(t.e, fx, Xor(fy, y), z, w);
    AdditiveFour(t.b, fy, Xor(fz, z), w, x);
    AdditiveFour(t.d, fz, Xor(fw, w), x, y);
    AdditiveFour(t.nine, fw, Xor(fx, x), y, z);
    RotateFour(t.b(fy), t.b(Xor(fz, z)), t.b(w), t.b(x));
    RotateFour(t.d(fz), t.d(Xor(fw, w)), t.d(x), t.d(y));
    RotateFour(t.d(y), t.d(fz), t.d(Xor(fw, w)), t.d(x));
    RotateFour(t.nine(Xor(fx, x)), t.nine(y), t.nine(z), t.nine(fw));
    TransposeSum(t.e(fx), t.e(Xor(fy, y)), t.e(z), t.e(w),
                 t.b(x), t.b(fy), t.b(Xor(fz, z)), t.b(w),
                 t.d(x), t.d(y), t.d(fz), t.d(Xor(fw, w)),
                 t.nine(Xor(fx, x)), t.nine(y), t.nine(z), t.nine(fw));
    ContributionOfFirst(t, x);
    ContributionOfSecond(t, y);
    ContributionOfThird(t, z);
    ContributionOfFourth(t, w);
    XorZero(x);
  }

  lemma InvMixColumnByte(t: Tables, x: Byte, y: Byte, z: Byte, w: Byte, tmp: Byte)
    requires Algebra(t) && tmp == Xor4(x, y, z, w)
    ensures InvMixByte(t, MixByte(t, x, y, tmp), MixByte(t, y, z, tmp),
                       MixByte(t, z, w, tmp), MixByte(t, w, x, tmp)) == x
  {
    RotateFour(w, x, y, z);
    RotateFour(z, w, x, y);
    RotateFour(y, z, w, x);
    MixByteForm(t, x, y, z, w);
    MixByteForm(t, y, z, w, x);
    MixByteForm(t, z, w, x, y);
    MixByteForm(t, w, x, y, z);
    InvMixUndoesMix(t, x, y, z, w);
  }

  lemma InvMixColumnOf(t: Tables, x: Byte, y: Byte, z: Byte, w: Byte, tmp: Byte)
    requires Algebra(t) && tmp == Xor4(x, y, z, w)
    ensures var p, q, r, s := MixByte(t, x, y, tmp), MixByte(t, y, z, tmp),
                              MixByte(t, z, w, tmp), MixByte(t, w, x, tmp);
            && InvMixByte(t, p, q, r, s) == x
            && InvMixByte(t, q, r, s, p) == y
            && InvMixByte(t, r, s, p, q) == z
            && InvMixByte(t, s, p, q, r) == w
  {
    RotateFour(w, x, y, z);
    RotateFour(z, w, x, y);
    RotateFour(y, z, w, x);
    InvMixColumnByte(t, x, y, z, w, tmp);
    InvMixColumnByte(t, y, z, w, x, tmp);
    InvMixColumnByte(t, z, w, x, y, tmp);
    InvMixColumnByte(t, w, x, y, z, tmp);
  }

  /** Section 5.3.3 of FIPS 197 inverts the column step, for every state. */
  lemma InvMixColumnInverts(t: Tables, a: Block)
    requires Algebra(t)
    ensures InvMixColumn(t, MixColumn(t, a)) == a
  {
    InvMixColumnOf(t, a.a0, a.a4, a.a8, a.a12, Xor4(a.a0, a.a4, a.a8, a.a12));
    InvMixColumnOf(t, a.a1, a.a5, a.a9, a.a13, Xor4(a.a1, a.a5, a.a9, a.a13));
    InvMixColumnOf(t, a.a2, a.a6, a.a10, a.a14, Xor4(a.a2, a.a6, a.a10, a.a14));
    InvMixColumnOf(t, a.a3, a.a7, a.a11, a.a15, Xor4(a.a3, a.a7, a.a11, a.a15));
  }

  lemma InvRoundUndoesRound(t: Tables, a: Block, k: Block)
    requires Algebra(t)
    ensures InvRound(t, Round(t, a, k), k) == a
  {
    var shifted := ShiftRow(MapBlock(t.s, a));
    AddKeyTwice(MixColumn(t, shifted), k);
    InvMixColumnInverts(t, shifted);
    SubShiftInverse(t, a);
  }

  lemma InvLastRoundUndoesLastRound(t: Tables, a: Block, k: Block)
    requires Algebra(t)
    ensures InvLastRound(t, LastRound(t, a, k), k) == a
  {
    AddKeyTwice(ShiftRow(MapBlock(t.s, a)), k);
    SubShiftInverse(t, a);
  }
}
