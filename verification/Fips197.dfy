/** The cipher and key expansion of FIPS 197 with a 256-bit key (sections 5.1 and 5.2), over a
    substitution and a multiplication by {02} that the caller supplies. */
module Fips197 {
  import opened Wrappers
  import opened Gf256
  import opened Rounds

  datatype Primitives = Primitives(sub: Byte -> Byte, xt: Byte -> Byte)

  /** The supplied operations are those of the standard. */
  ghost predicate Standard(p: Primitives) {
    forall x :: StandardAt(p, x)
  }

  ghost predicate StandardAt(p: Primitives, x: Byte) {
    IsSubByte(x, p.sub(x)) && p.xt(x) == Xtime(x)
  }

  /** A column of the state, or a word of the key schedule. */
  datatype Word = Word(b0: Byte, b1: Byte, b2: Byte, b3: Byte)

  datatype State = State(c0: Word, c1: Word, c2: Word, c3: Word)

  function WordByte(w: Word, j: nat): Byte
    requires j < 4
  {
    match j
    case 0 => w.b0
    case 1 => w.b1
    case 2 => w.b2
    case _ => w.b3
  }

  function XorWord(v: Word, w: Word): Word {
    Word(Xor(v.b0, w.b0), Xor(v.b1, w.b1), Xor(v.b2, w.b2), Xor(v.b3, w.b3))
  }

  function SubWord(p: Primitives, w: Word): Word {
    Word(p.sub(w.b0), p.sub(w.b1), p.sub(w.b2), p.sub(w.b3))
  }

  function RotWord(w: Word): Word {
    Word(w.b1, w.b2, w.b3, w.b0)
  }

  /** {02} to the power n. */
  function PowerOfTwo(p: Primitives, n: nat): Byte {
    if n == 0 then 1 else p.xt(PowerOfTwo(p, n - 1))
  }

  /** The round constant word Rcon[n]. */
  function Rcon(p: Primitives, n: nat): Word
    requires n > 0
  {
    Word(PowerOfTwo(p, n - 1), 0, 0, 0)
  }

  /** Word w[i] of the key schedule, section 5.2 with Nk = 8. */
  function KeyWord(p: Primitives, key: seq<Byte>, i: nat): Word
    requires |key| == 32
  {
    if i < 8 then
      Word(key[4 * i], key[4 * i + 1], key[4 * i + 2], key[4 * i + 3])
    else
      XorWord(KeyWord(p, key, i - 8), ScheduleCore(p, i, KeyWord(p, key, i - 1)))
  }

  function ScheduleCore(p: Primitives, i: nat, temp: Word): Word
    requires i >= 8
  {
    if i % 8 == 0 then XorWord(SubWord(p, RotWord(temp)), Rcon(p, i / 8))
    else if i % 8 == 4 then SubWord(p, temp)
    else temp
  }

  function RoundKey(p: Primitives, key: seq<Byte>, r: nat): State
    requires |key| == 32
  {
    State(KeyWord(p, key, 4 * r), KeyWord(p, key, 4 * r + 1),
          KeyWord(p, key, 4 * r + 2), KeyWord(p, key, 4 * r + 3))
  }

  function AddRoundKey(s: State, k: State): State {
    State(XorWord(s.c0, k.c0), XorWord(s.c1, k.c1), XorWord(s.c2, k.c2), XorWord(s.c3, k.c3))
  }

  function SubBytes(p: Primitives, s: State): State {
    State(SubWord(p, s.c0), SubWord(p, s.c1), SubWord(p, s.c2), SubWord(p, s.c3))
  }

  function ShiftRows(s: State): State {
    State(Word(s.c0.b0, s.c1.b1, s.c2.b2, s.c3.b3),
          Word(s.c1.b0, s.c2.b1, s.c3.b2, s.c0.b3),
          Word(s.c2.b0, s.c3.b1, s.c0.b2, s.c1.b3),
          Word(s.c3.b0, s.c0.b1, s.c1.b2, s.c2.b3))
  }

  function Times3(p: Primitives, x: Byte): Byte {
    Xor(p.xt(x), x)
  }

  function MixWord(p: Primitives, w: Word): Word {
    Word(Xor4(p.xt(w.b0), Times3(p, w.b1), w.b2, w.b3),
         Xor4(w.b0, p.xt(w.b1), Times3(p, w.b2), w.b3),
         Xor4(w.b0, w.b1, p.xt(w.b2), Times3(p, w.b3)),
         Xor4(Times3(p, w.b0), w.b1, w.b2, p.xt(w.b3)))
  }

  function MixColumns(p: Primitives, s: State): State {
    State(MixWord(p, s.c0), MixWord(p, s.c1), MixWord(p, s.c2), MixWord(p, s.c3))
  }

  /** Rounds 1 to Nr - 1. */
  function FullRound(p: Primitives, key: seq<Byte>): (nat, State) -> State
    requires |key| == 32
  {
    (r: nat, s: State) => AddRoundKey(MixColumns(p, ShiftRows(SubBytes(p, s))), RoundKey(p, key, r))
  }

  /** Section 5.1 with Nr = 14. */
  function Cipher(p: Primitives, key: seq<Byte>, s: State): State
    requires |key| == 32
  {
    var before := Iterate(FullRound(p, key), AddRoundKey(s, RoundKey(p, key, 0)), 13);
    AddRoundKey(ShiftRows(SubBytes(p, before)), RoundKey(p, key, 14))
  }

  // Input and output bytes fill the state column by column, section 3.4.

  function StateOf(s: seq<Byte>): State
    requires |s| == 16
  {
    State(Word(s[0], s[1], s[2], s[3]), Word(s[4], s[5], s[6], s[7]),
          Word(s[8], s[9], s[10], s[11]), Word(s[12], s[13], s[14], s[15]))
  }

  function BytesOf(s: State): seq<Byte> {
    [s.c0.b0, s.c0.b1, s.c0.b2, s.c0.b3, s.c1.b0, s.c1.b1, s.c1.b2, s.c1.b3,
     s.c2.b0, s.c2.b1, s.c2.b2, s.c2.b3, s.c3.b0, s.c3.b1, s.c3.b2, s.c3.b3]
  }

  function CipherBytes(p: Primitives, key: seq<Byte>, input: seq<Byte>): seq<Byte>
    requires |key| == 32 && |input| == 16
  {
    BytesOf(Cipher(p, key, StateOf(input)))
  }
}
