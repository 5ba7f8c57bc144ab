/** paradox/lib/crypto.py as it runs: the tables computed at import, the memoized key schedule filled
    in place, and the loops of `encrypt` and `decrypt`. */
module Crypto {
  import opened Wrappers
  import opened Gf256
  import opened CryptoTables
  import opened TableFacts
  import opened CipherSteps
  import opened Rounds
  import opened BlockCipher
  import F = Fips197

  /** What the module-level tables hold: `rcon` the powers of {02}, the cipher tables the operations
      of FIPS 197, and the four decryption tables the products with 0E, 0B, 0D and 09. */
  ghost predicate Standard(t: Tables) {
    && F.Standard(Primitives(t))
    && (forall x :: ProductsAt(t, x))
    && |t.rcon| == 30
    && forall n: nat | n < 30 :: t.rcon[n] == F.PowerOfTwo(Primitives(t), n)
  }

  ghost predicate ProductsAt(t: Tables, x: Byte) {
    && t.si(t.s(x)) == x
    && t.e(x) == Mul(0x0e, x) && t.b(x) == Mul(0x0b, x) && t.d(x) == Mul(0x0d, x) && t.nine(x) == Mul(0x09, x)
  }

  // ---------- the tables ----------

  /** The entry `_prepare_inverse_mix_column_parts` computes for the coefficient whose logarithm is `lt`. */
  function ProductEntry(num: Numbers, lt: Byte, i: Byte): Byte {
    if i == 0 then 0 else AlogTable(SumOfLogs(num, lt, LogTable(i)))
  }

  lemma ProductEntryIsProduct(num: Numbers, x: Byte)
    requires Converts(num)
    ensures ProductEntry(num, LogTable(0x0e), x) == Mul(0x0e, x)
    ensures ProductEntry(num, LogTable(0x0b), x) == Mul(0x0b, x)
    ensures ProductEntry(num, LogTable(0x0d), x) == Mul(0x0d, x)
    ensures ProductEntry(num, LogTable(0x09), x) == Mul(0x09, x)
  {
    if x != 0 {
      ProductE(x);
      ProductB(x);
      ProductD(x);
      ProductNine(x);
      EntryIsAdd255(num, LogTable(0x0e), x);
      EntryIsAdd255(num, LogTable(0x0b), x);
      EntryIsAdd255(num, LogTable(0x0d), x);
      EntryIsAdd255(num, LogTable(0x09), x);
    }
  }

  lemma EntryIsAdd255(num: Numbers, lt: Byte, x: Byte)
    requires Converts(num) && lt < 255 && x != 0
    ensures ProductEntry(num, lt, x) == AlogTable(Add255(lt, LogTable(x)))
  {
    LogBelow255(x);
    SumOfLogsIsAdd255(num, lt, LogTable(x));
  }

  /** `table` lists the products with `c`. */
  ghost predicate IsProductTable(table: seq<Byte>, c: Byte) {
    |table| == 256 && forall x: Byte :: table[x as int] == Mul(c, x)
  }

  /** The entries of `table` below index i are computed by `entry` from the logarithm `lt`. */
  ghost predicate Filled(table: seq<Byte>, entry: (Byte, Byte) -> Byte, lt: Byte, i: nat) {
    |table| == 256 && forall x: Byte | x as int < i :: table[x as int] == entry(lt, x)
  }

  lemma FilledStep(table: seq<Byte>, entry: (Byte, Byte) -> Byte, lt: Byte, i: nat)
    requires i < 256 && Filled(table, entry, lt, i)
    ensures Filled(table[i := entry(lt, i as Byte)], entry, lt, i + 1)
  {
    var next := table[i := entry(lt, i as Byte)];
    forall x: Byte | x as int < i + 1
      ensures next[x as int] == entry(lt, x)
    {
      if x as int == i {
        assert x == i as Byte;
      }
    }
  }

  /** The loop of `_prepare_inverse_mix_column_parts`; `entry` computes one entry from the logarithm
      of a coefficient and an index. */
  method FillProductTables(entry: (Byte, Byte) -> Byte, ltE: Byte, ltB: Byte, ltD: Byte, lt9: Byte)
    returns (eTable: array<Byte>, bTable: array<Byte>, dTable: array<Byte>, nineTable: array<Byte>)
    requires forall lt :: entry(lt, 0) == 0
    ensures Filled(eTable[..], entry, ltE, 256) && Filled(bTable[..], entry, ltB, 256)
    ensures Filled(dTable[..], entry, ltD, 256) && Filled(nineTable[..], entry, lt9, 256)
  {
    eTable := new Byte[256](_ => 0);
    bTable := new Byte[256](_ => 0);
    dTable := new Byte[256](_ => 0);
    nineTable := new Byte[256](_ => 0);
    for i := 1 to 256
      invariant Filled(eTable[..], entry, ltE, i) && Filled(bTable[..], entry, ltB, i)
      invariant Filled(dTable[..], entry, ltD, i) && Filled(nineTable[..], entry, lt9, i)
    {
      FilledStep(eTable[..], entry, ltE, i);
      FilledStep(bTable[..], entry, ltB, i);
      FilledStep(dTable[..], entry, ltD, i);
      FilledStep(nineTable[..], entry, lt9, i);
      eTable[i] := entry(ltE, i as Byte);
      bTable[i] := entry(ltB, i as Byte);
      dTable[i] := entry(ltD, i as Byte);
      nineTable[i] := entry(lt9, i as Byte);
    }
  }

  /** `_prepare_inverse_mix_column_parts`. */
  method PrepareInverseMixColumnParts() returns (e: seq<Byte>, b: seq<Byte>, d: seq<Byte>, nine: seq<Byte>)
    ensures IsProductTable(e, 0x0e) && IsProductTable(b, 0x0b)
    ensures IsProductTable(d, 0x0d) && IsProductTable(nine, 0x09)
  {
    NativeConverts();
    e, b, d, nine := ProductTables(Native());
  }

  method ProductTables(num: Numbers) returns (e: seq<Byte>, b: seq<Byte>, d: seq<Byte>, nine: seq<Byte>)
    requires Converts(num)
    ensures IsProductTable(e, 0x0e) && IsProductTable(b, 0x0b)
    ensures IsProductTable(d, 0x0d) && IsProductTable(nine, 0x09)
  {
    var entry := (lt: Byte, i: Byte) => ProductEntry(num, lt, i);
    var eTable, bTable, dTable, nineTable :=
      FillProductTables(entry, LogTable(0x0e), LogTable(0x0b), LogTable(0x0d), LogTable(0x09));
    e, b, d, nine := eTable[..], bTable[..], dTable[..], nineTable[..];
    forall x: Byte
      ensures entry(LogTable(0x0e), x) == Mul(0x0e, x) && entry(LogTable(0x0b), x) == Mul(0x0b, x)
      ensures entry(LogTable(0x0d), x) == Mul(0x0d, x) && entry(LogTable(0x09), x) == Mul(0x09, x)
    {
      ProductEntryIsProduct(num, x);
    }
    FilledIsProducts(e, entry, LogTable(0x0e), 0x0e);
    FilledIsProducts(b, entry, LogTable(0x0b), 0x0b);
    FilledIsProducts(d, entry, LogTable(0x0d), 0x0d);
    FilledIsProducts(nine, entry, LogTable(0x09), 0x09);
  }

  lemma FilledIsProducts(table: seq<Byte>, entry: (Byte, Byte) -> Byte, lt: Byte, c: Byte)
    requires Filled(table, entry, lt, 256) && forall x: Byte :: entry(lt, x) == Mul(c, x)
    ensures IsProductTable(table, c)
  {
    forall x: Byte
      ensures table[x as int] == Mul(c, x)
    {
      assert entry(lt, x) == Mul(c, x);
    }
  }

  /** Importing the module: the literal tables and the four computed ones. */
  method LoadTables() returns (t: Tables)
    ensures Standard(t)
  {
    var e, b, d, nine := PrepareInverseMixColumnParts();
    t := Tables(SBox, InvSBox, XtimeTbl,
                (x: Byte) => e[x as int], (x: Byte) => b[x as int],
                (x: Byte) => d[x as int], (x: Byte) => nine[x as int],
                seq(30, n requires 0 <= n < 30 => RconTable(n)));
    LiteralTablesStandard(t);
  }

  lemma LiteralTablesStandard(t: Tables)
    requires t.s == SBox && t.si == InvSBox && t.xt == XtimeTbl
    requires forall x :: t.e(x) == Mul(0x0e, x) && t.b(x) == Mul(0x0b, x)
    requires forall x :: t.d(x) == Mul(0x0d, x) && t.nine(x) == Mul(0x09, x)
    requires |t.rcon| == 30 && forall n | 0 <= n < 30 :: t.rcon[n] == RconTable(n)
    ensures Standard(t)
  {
    var p := Primitives(t);
    LiteralCipherTables(p);
    LiteralInverse(t);
    forall n: nat | n < 30
      ensures RconTable(n) == F.PowerOfTwo(p, n)
    {
      RconIsPower(p, n);
    }
  }

  lemma LiteralCipherTables(p: F.Primitives)
    requires p == F.Primitives(SBox, XtimeTbl)
    ensures F.Standard(p)
  {
    forall x
      ensures F.StandardAt(p, x)
    {
      SBoxIsSubByte(x);
      XtimeTblIsXtime(x);
    }
  }

  lemma LiteralInverse(t: Tables)
    requires t.s == SBox && t.si == InvSBox
    requires forall x :: t.e(x) == Mul(0x0e, x) && t.b(x) == Mul(0x0b, x)
    requires forall x :: t.d(x) == Mul(0x0d, x) && t.nine(x) == Mul(0x09, x)
    ensures forall x :: ProductsAt(t, x)
  {
    forall x
      ensures ProductsAt(t, x)
    {
      InvSBoxInverts(x);
    }
  }

  lemma {:induction false} RconIsPower(p: F.Primitives, n: nat)
    requires F.Standard(p) && n < 30
    ensures RconTable(n) == F.PowerOfTwo(p, n)
  {
    if n > 0 {
      RconIsPower(p, n - 1);
      RconStep(n);
      assert F.StandardAt(p, RconTable(n - 1));
    }
  }

  lemma RconStep(n: nat)
    requires 0 < n < 30
    ensures RconTable(n) == Xtime(RconTable(n - 1))
  {}

  /** The tables of the source satisfy everything decryption and the refinement need. */
  lemma StandardAlgebra(t: Tables)
    requires Standard(t)
    ensures Algebra(t)
  {
    var p := Primitives(t);
    forall x: Byte, y: Byte
      ensures AdditiveAt(t.xt, x, y)
    {
      assert F.StandardAt(p, x) && F.StandardAt(p, y) && F.StandardAt(p, Xor(x, y));
      XtimeAdditiveAt(x, y);
    }
    forall x
      ensures AlgebraAt(t, x)
    {
      assert ProductsAt(t, x);
      assert F.StandardAt(p, x) && F.StandardAt(p, Xtime(x)) && F.StandardAt(p, Xtime(Xtime(x)));
      MulE(x);
      MulB(x);
      MulD(x);
      MulNine(x);
    }
  }

  // ---------- the key schedule ----------

  /** Word i of a schedule that is being filled. */
  function WordAt(rk: seq<Byte>, i: nat): F.Word
    requires |rk| == 240 && i < 60
  {
    var o := WordOffset(i);
    F.Word(rk[o], rk[o + 4], rk[o + 8], rk[o + 12])
  }

  function TempWord(temp: seq<Byte>): F.Word
    requires |temp| == 4
  {
    F.Word(temp[0], temp[1], temp[2], temp[3])
  }

  // The source finds the offset of a word by masking and shifting its number.

  function Masked(w: bv16): bv16 {
    ((w & 0xFC) << 2) + (w & 0x03)
  }

  lemma MaskedStep(v: bv16, w: bv16)
    requires 4 <= w < 60 && v == w - 4
    ensures Masked(w) == Masked(v) + 16 && Masked(v) < 0x1000
  {}

  lemma PlusSixteen(x: bv16, y: bv16)
    requires x < 0x1000 && y == x + 16
    ensures y as int == x as int + 16
  {}

  lemma MinusFour(v: bv16, w: bv16)
    requires 4 <= w < 60 && v == w - 4
    ensures v as int == w as int - 4
  {}

  lemma MaskedSmall(w: bv16)
    requires w < 4
    ensures Masked(w) == w
  {}

  lemma SameBounds(i: nat, w: bv16)
    requires w as int == i
    ensures (w < 4 <==> i < 4) && (w < 60 <==> i < 60)
  {}

  lemma OffsetStep(i: nat)
    requires i >= 4
    ensures WordOffset(i) == WordOffset(i - 4) + 16
  {}

  lemma {:induction false} MaskedIsOffset(i: nat, w: bv16)
    requires i < 60 && w as int == i
    ensures Masked(w) as int == WordOffset(i)
  {
    SameBounds(i, w);
    if i < 4 {
      MaskedSmall(w);
    } else {
      var v := w - 4;
      MinusFour(v, w);
      MaskedIsOffset(i - 4, v);
      MaskedStep(v, w);
      PlusSixteen(Masked(v), Masked(w));
      OffsetStep(i);
    }
  }

  /** The offset of word i, as the source computes it. */
  method Offset(i: nat) returns (o: nat)
    requires i < 60
    ensures o == WordOffset(i)
  {
    SixteenBits(i);
    MaskedIsOffset(i, i as bv16);
    o := Masked(i as bv16) as int;
  }

  lemma SixteenBits(i: nat)
    requires i < 60
    ensures (i as bv16) as int == i
  {
    if i < 30 {} else {}
  }

  /** Copy the word at offset o, byte by byte. */
  method ReadWord(rk: array<Byte>, temp: array<Byte>, o: nat)
    requires rk.Length == 240 && temp.Length == 4 && rk != temp && o < 228
    modifies temp
    ensures temp[..] == [rk[o], rk[o + 4], rk[o + 8], rk[o + 12]]
  {
    for j := 0 to 4
      invariant forall n | 0 <= n < j :: temp[n] == rk[o + n * 4]
    {
      temp[j] := rk[o + j * 4];
    }
  }

  /** Substitute the four bytes of `temp`. */
  method SubTemp(t: Tables, temp: array<Byte>)
    requires temp.Length == 4
    modifies temp
    ensures TempWord(temp[..]) == F.SubWord(Primitives(t), old(TempWord(temp[..])))
  {
    for j := 0 to 4
      invariant forall n | 0 <= n < 4 :: temp[n] == if n < j then t.s(old(temp[n])) else old(temp[n])
    {
      temp[j] := t.s(temp[j]);
    }
  }

  /** The byte rotation by way of `tmp`. */
  method RotTemp(temp: array<Byte>)
    requires temp.Length == 4
    modifies temp
    ensures TempWord(temp[..]) == F.RotWord(old(TempWord(temp[..])))
  {
    var tmp := temp[0];
    for j := 1 to 4
      invariant forall n | 0 <= n < 4 :: temp[n] == if n < j - 1 then old(temp[n + 1]) else old(temp[n])
    {
      temp[j - 1] := temp[j];
    }
    temp[3] := tmp;
  }

  /** `s` with the first j of four values put at o, o + 4, o + 8 and o + 12. */
  function PutColumn(s: seq<Byte>, o: nat, vals: seq<Byte>, j: nat): (r: seq<Byte>)
    requires o + 12 < |s| && |vals| == 4 && j <= 4
    ensures |r| == |s|
    ensures forall k | 0 <= k < j :: r[o + 4 * k] == vals[k]
    ensures forall m | 0 <= m < |s| && (forall k | 0 <= k < j :: m != o + 4 * k) :: r[m] == s[m]
  {
    if j == 0 then s else PutColumn(s, o, vals, j - 1)[o + 4 * (j - 1) := vals[j - 1]]
  }

  /** The four bytes at q, q + 4, q + 8 and q + 12, each added to its byte of `temp`. */
  function ColumnSums(s: seq<Byte>, q: nat, temp: seq<Byte>): (r: seq<Byte>)
    requires q + 12 < |s| && |temp| == 4
  {
    seq(4, j requires 0 <= j < 4 => Xor(s[q + 4 * j], temp[j]))
  }

  /** `after` is `before` with the word at o replaced by the sum of the word eight back and `temp`. */
  ghost predicate WordWritten(before: seq<Byte>, after: seq<Byte>, o: nat, temp: seq<Byte>) {
    && |before| == 240 && 32 <= o < 228 && |temp| == 4
    && after == PutColumn(before, o, ColumnSums(before, o - 32, temp), 4)
  }

  /** Add `temp` to the word at q, eight words back, into the word at o. */
  method WriteWord(rk: array<Byte>, temp: array<Byte>, o: nat, q: nat)
    requires rk.Length == 240 && temp.Length == 4 && rk != temp && o == q + 32 && o < 228
    modifies rk
    ensures WordWritten(old(rk[..]), rk[..], o, temp[..])
  {
    ghost var before := rk[..];
    ghost var vals := ColumnSums(before, q, temp[..]);
    for j := 0 to 4
      invariant rk[..] == PutColumn(before, o, vals, j)
    {
      PutColumnLeaves(before, o, vals, j);
      var sum := Xor(rk[q + j * 4], temp[j]);
      assert sum == vals[j];
      rk[o + j * 4] := sum;
    }
  }

  lemma PutColumnLeaves(s: seq<Byte>, o: nat, vals: seq<Byte>, j: nat)
    requires 32 <= o && o + 12 < |s| && |vals| == 4 && j < 4
    ensures PutColumn(s, o, vals, j)[o - 32 + j * 4] == s[o - 32 + j * 4]
  {}

  lemma WordWrittenOthers(before: seq<Byte>, after: seq<Byte>, i: nat, temp: seq<Byte>, n: nat)
    requires 8 <= i < 60 && n < 60 && n != i && WordWritten(before, after, WordOffset(i), temp)
    ensures WordAt(after, n) == WordAt(before, n)
  {
    OffsetsDiffer(i, n, 0);
    OffsetsDiffer(i, n, 1);
    OffsetsDiffer(i, n, 2);
    OffsetsDiffer(i, n, 3);
  }

  lemma WordWrittenBytes(before: seq<Byte>, after: seq<Byte>, o: nat, temp: seq<Byte>)
    requires WordWritten(before, after, o, temp)
    ensures |after| == 240
    ensures after[o] == Xor(before[o - 32], temp[0]) && after[o + 4] == Xor(before[o - 28], temp[1])
    ensures after[o + 8] == Xor(before[o - 24], temp[2]) && after[o + 12] == Xor(before[o - 20], temp[3])
  {
    var vals := ColumnSums(before, o - 32, temp);
    assert after[o + 4 * 0] == vals[0] && after[o + 4 * 1] == vals[1];
    assert after[o + 4 * 2] == vals[2] && after[o + 4 * 3] == vals[3];
  }

  lemma WordWrittenThis(before: seq<Byte>, after: seq<Byte>, i: nat, temp: seq<Byte>)
    requires 8 <= i < 60 && WordWritten(before, after, WordOffset(i), temp)
    ensures WordAt(after, i) == F.XorWord(WordAt(before, i - 8), TempWord(temp))
  {
    OffsetBack(i);
    WordWrittenBytes(before, after, WordOffset(i), temp);
  }

  /** Words 0 to i - 1 of `rk` are those of the standard. */
  ghost predicate Expanded(rk: seq<Byte>, p: F.Primitives, key: seq<Byte>, i: nat) {
    && |rk| == 240 && |key| == 32 && i <= 60
    && forall n: nat | n < i :: WordAt(rk, n) == F.KeyWord(p, key, n)
  }

  lemma ExpandedStep(before: seq<Byte>, after: seq<Byte>, p: F.Primitives, key: seq<Byte>, i: nat, temp: seq<Byte>)
    requires 8 <= i < 60 && Expanded(before, p, key, i) && WordWritten(before, after, WordOffset(i), temp)
    requires TempWord(temp) == F.ScheduleCore(p, i, F.KeyWord(p, key, i - 1))
    ensures Expanded(after, p, key, i + 1)
  {
    forall n: nat | n < i + 1
      ensures WordAt(after, n) == F.KeyWord(p, key, n)
    {
      if n == i {
        WordWrittenThis(before, after, i, temp);
      } else {
        WordWrittenOthers(before, after, i, temp, n);
      }
    }
  }

  /** The first loop of `_keygen` has copied the key into the first eight words, transposed. */
  ghost predicate KeyCopied(rk: seq<Byte>, key: seq<Byte>, i: nat, j: nat) {
    && |rk| == 240 && |key| >= 32
    && forall m, n | 0 <= m < 4 && 0 <= n < 4 && (m < i || (m == i && n < j)) :: ByteCopied(rk, key, m, n)
  }

  ghost predicate ByteCopied(rk: seq<Byte>, key: seq<Byte>, m: nat, n: nat)
    requires |rk| == 240 && |key| >= 32 && m < 4 && n < 4
  {
    rk[n * 4 + m] == key[m * 4 + n] && rk[n * 4 + m + 16] == key[m * 4 + n + 16]
  }

  lemma KeyCopiedByte(rk: seq<Byte>, key: seq<Byte>, n: nat, k: nat)
    requires KeyCopied(rk, key, 4, 0) && n < 8 && k < 4
    ensures rk[WordOffset(n) + 4 * k] == key[4 * n + k]
  {
    if n < 4 {
      OffsetParts(0, n);
      assert ByteCopied(rk, key, n, k);
    } else {
      OffsetParts(1, n - 4);
      assert ByteCopied(rk, key, n - 4, k);
    }
  }

  lemma KeyCopiedWord(rk: seq<Byte>, p: F.Primitives, key: seq<Byte>, n: nat)
    requires KeyCopied(rk, key, 4, 0) && n < 8
    ensures WordAt(rk, n) == F.KeyWord(p, key[..32], n)
  {
    KeyCopiedByte(rk, key, n, 0);
    KeyCopiedByte(rk, key, n, 1);
    KeyCopiedByte(rk, key, n, 2);
    KeyCopiedByte(rk, key, n, 3);
  }

  lemma KeyCopiedExpanded(rk: seq<Byte>, p: F.Primitives, key: seq<Byte>)
    requires KeyCopied(rk, key, 4, 0)
    ensures Expanded(rk, p, key[..32], 8)
  {
    forall n: nat | n < 8
      ensures WordAt(rk, n) == F.KeyWord(p, key[..32], n)
    {
      KeyCopiedWord(rk, p, key, n);
    }
  }

  lemma ExpandedIsSchedule(rk: seq<Byte>, t: Tables, k: seq<Byte>)
    requires k != [] && Expanded(rk, Primitives(t), KeyBytes(k), 60)
    ensures rk == Schedule(t, k)
  {
    forall m | 0 <= m < 240
      ensures rk[m] == Schedule(t, k)[m]
    {
      IndexSplit(m);
      SameByte(rk, t, k, m, m / 16, m % 16 / 4, m % 4);
    }
  }

  lemma SameByte(rk: seq<Byte>, t: Tables, k: seq<Byte>, m: nat, q: nat, j: nat, c: nat)
    requires k != [] && Expanded(rk, Primitives(t), KeyBytes(k), 60)
    requires q < 15 && j < 4 && c < 4 && m == 16 * q + 4 * j + c
    ensures rk[m] == Schedule(t, k)[m]
  {
    ExpandedByte(rk, Primitives(t), KeyBytes(k), q, j, c);
    ScheduleByte(t, k, q, j, c);
  }

  lemma ScheduleByte(t: Tables, k: seq<Byte>, q: nat, j: nat, c: nat)
    requires k != [] && q < 15 && j < 4 && c < 4
    ensures Schedule(t, k)[16 * q + 4 * j + c] == F.WordByte(F.KeyWord(Primitives(t), KeyBytes(k), 4 * q + c), j)
  {
    IndexParts(q, j, c);
  }

  lemma IndexSplit(m: nat)
    ensures m == 16 * (m / 16) + 4 * (m % 16 / 4) + m % 4
  {
    IndexParts(m / 16, m % 16 / 4, m % 16 % 4);
  }

  lemma ExpandedByte(rk: seq<Byte>, p: F.Primitives, key: seq<Byte>, q: nat, j: nat, c: nat)
    requires Expanded(rk, p, key, 60) && q < 15 && j < 4 && c < 4
    ensures rk[16 * q + 4 * j + c] == F.WordByte(F.KeyWord(p, key, 4 * q + c), j)
  {
    var i := 4 * q + c;
    OffsetParts(q, c);
    assert WordAt(rk, i) == F.KeyWord(p, key, i);
    if j == 0 {} else if j == 1 {} else if j == 2 {} else {}
  }

  /** `_keygen` without its memo: an empty key raises IndexError. */
  method Keygen(t: Tables, k: seq<Byte>) returns (r: Option<array<Byte>>)
    requires Standard(t)
    ensures r.None? <==> k == []
    ensures r.Some? ==> fresh(r.value) && r.value[..] == Schedule(t, k)
  {
    var rk := new Byte[240](_ => 0);
    var key := Pad(k, 32);
    if k == [] {
      return None;
    }
    var temp := new Byte[4](_ => 0);
    CopyKey(rk, key);
    ghost var p, first := Primitives(t), key[..32];
    KeyCopiedExpanded(rk[..], p, key);
    for i := 8 to 60
      invariant Expanded(rk[..], p, first, i)
    {
      ExpandWord(t, rk, temp, i, first);
    }
    ExpandedIsSchedule(rk[..], t, k);
    r := Some(rk);
  }

  /** The body of the main loop. */
  method ExpandWord(t: Tables, rk: array<Byte>, temp: array<Byte>, i: nat, ghost key: seq<Byte>)
    requires Standard(t) && rk.Length == 240 && temp.Length == 4 && rk != temp
    requires 8 <= i < 60 && Expanded(rk[..], Primitives(t), key, i)
    modifies rk, temp
    ensures Expanded(rk[..], Primitives(t), key, i + 1)
  {
    var last := Offset(i - 1);
    ReadWord(rk, temp, last);
    assert TempWord(temp[..]) == WordAt(rk[..], i - 1);
    TransformTemp(t, temp, i);
    ghost var before := rk[..];
    OffsetBack(i);
    var o := Offset(i);
    var q := Offset(i - 8);
    WriteWord(rk, temp, o, q);
    ExpandedStep(before, rk[..], Primitives(t), key, i, temp[..]);
  }

  lemma OffsetBack(i: nat)
    requires 8 <= i < 60
    ensures WordOffset(i) == WordOffset(i - 8) + 32 && WordOffset(i) < 228
  {}

  /** The two special cases of the main loop. */
  method TransformTemp(t: Tables, temp: array<Byte>, i: nat)
    requires Standard(t) && temp.Length == 4 && 8 <= i < 60
    modifies temp
    ensures TempWord(temp[..]) == F.ScheduleCore(Primitives(t), i, old(TempWord(temp[..])))
  {
    if i % 8 == 0 {
      SubTemp(t, temp);
      RotTemp(temp);
      AddRcon(t, temp, i);
    } else if i % 8 == 4 {
      SubTemp(t, temp);
    }
  }

  /** Add the round constant to the first byte of `temp`. */
  method AddRcon(t: Tables, temp: array<Byte>, i: nat)
    requires Standard(t) && temp.Length == 4 && 8 <= i < 60
    modifies temp
    ensures TempWord(temp[..]) == F.XorWord(old(TempWord(temp[..])), F.Rcon(Primitives(t), i / 8))
  {
    XorZero(temp[1]);
    XorZero(temp[2]);
    XorZero(temp[3]);
    temp[0] := Xor(temp[0], t.rcon[i / 8 - 1]);
  }

  lemma KeyCopiedStep(rk: seq<Byte>, key: seq<Byte>, i: nat, j: nat)
    requires i < 4 && j < 4 && KeyCopied(rk, key, i, j)
    ensures KeyCopied(rk[j * 4 + i := key[i * 4 + j]][j * 4 + i + 16 := key[i * 4 + j + 16]], key, i, j + 1)
  {
    var next := rk[j * 4 + i := key[i * 4 + j]][j * 4 + i + 16 := key[i * 4 + j + 16]];
    forall m, n | 0 <= m < 4 && 0 <= n < 4 && (m < i || (m == i && n < j + 1))
      ensures ByteCopied(next, key, m, n)
    {
      if m != i || n != j {
        assert n * 4 + m != j * 4 + i;
        assert ByteCopied(rk, key, m, n);
      }
    }
  }

  /** The first loop of `_keygen`. */
  method CopyKey(rk: array<Byte>, key: seq<Byte>)
    requires rk.Length == 240 && |key| >= 32
    modifies rk
    ensures KeyCopied(rk[..], key, 4, 0)
  {
    for i := 0 to 4
      invariant KeyCopied(rk[..], key, i, 0)
    {
      for j := 0 to 4
        invariant KeyCopied(rk[..], key, i, j)
      {
        KeyCopiedStep(rk[..], key, i, j);
        rk[j * 4 + i] := key[i * 4 + j];
        rk[j * 4 + i + 16] := key[i * 4 + j + 16];
      }
    }
  }

  lemma OffsetsDiffer(i: nat, n: nat, k: nat)
    requires i < 60 && n < 60 && n != i && k < 4
    ensures forall j | 0 <= j < 4 :: WordOffset(n) + 4 * k != WordOffset(i) + 4 * j
  {
    forall j | 0 <= j < 4
      ensures WordOffset(n) + 4 * k != WordOffset(i) + 4 * j
    {
      OffsetInverse(i, j);
      OffsetInverse(n, k);
    }
  }

  /** `memoized` around `_keygen`: callers share the cached arrays. */
  class Memoized {
    const t: Tables
    var cache: map<seq<Byte>, array<Byte>>

    /** Every cached array still holds the schedule of its key. */
    ghost predicate Valid()
      reads this, set k | k in cache :: cache[k]
    {
      && Standard(t)
      && forall k | k in cache :: k != [] && cache[k][..] == Schedule(t, k)
    }

    constructor (t: Tables)
      requires Standard(t)
      ensures Valid() && this.t == t && cache == map[]
    {
      this.t := t;
      cache := map[];
    }

    method Call(k: seq<Byte>) returns (r: Option<array<Byte>>)
      requires Valid()
      modifies this
      ensures Valid()
      ensures r.None? <==> k == []
      ensures r.Some? ==> k in cache && r.value == cache[k] && r.value[..] == Schedule(t, k)
      ensures forall x | x in old(cache) :: x in cache && cache[x] == old(cache[x])
    {
      if k in cache {
        return Some(cache[k]);
      }
      r := Keygen(t, k);
      if r.Some? {
        cache := cache[k := r.value];
      }
    }
  }

  // ---------- encrypt and decrypt ----------

  /** The body of the block loop of `encrypt`. */
  method EncryptOne(t: Tables, rk: seq<Byte>, block: Block) returns (a: Block)
    requires |rk| == 240
    ensures a == EncryptBlock(t, rk, block)
  {
    a := AddKey(block, RoundBlock(rk, 0));
    a := Run(RoundFn(t, rk), a, ROUNDS);
  }

  /** The body of the block loop of `decrypt`. */
  method DecryptOne(t: Tables, rk: seq<Byte>, block: Block) returns (a: Block)
    requires |rk| == 240
    ensures a == DecryptBlock(t, rk, block)
  {
    a := RunBack(InvRoundFn(t, rk), block, ROUNDS);
    a := AddKey(a, RoundBlock(rk, 0));
  }

  method EncryptSlice(t: Tables, rk: seq<Byte>, ctxt: seq<Byte>, o: nat) returns (s: seq<Byte>)
    requires |rk| == 240 && o + 16 <= |ctxt|
    ensures s == EncryptChunk(t, rk)(ctxt[o..o + 16])
  {
    var a := EncryptOne(t, rk, LoadAt(ctxt, o));
    assert Load(ctxt[o..o + 16]) == LoadAt(ctxt, o);
    s := Store(a);
  }

  method DecryptSlice(t: Tables, rk: seq<Byte>, ctxt: seq<Byte>, o: nat) returns (s: seq<Byte>)
    requires |rk| == 240 && o + 16 <= |ctxt|
    ensures s == DecryptChunk(t, rk)(ctxt[o..o + 16])
  {
    var a := DecryptOne(t, rk, LoadAt(ctxt, o));
    assert Load(ctxt[o..o + 16]) == LoadAt(ctxt, o);
    s := Store(a);
  }

  lemma NextChunk(f: seq<Byte> -> seq<Byte>, m: seq<Byte>, i: nat)
    requires 16 * i + 16 <= |m|
    ensures MapChunks(f, m[..16 * (i + 1)]) == MapChunks(f, m[..16 * i]) + f(m[16 * i..16 * i + 16])
  {
    MapChunksAppend(f, m[..16 * i], m[16 * i..16 * i + 16]);
    assert m[..16 * i] + m[16 * i..16 * i + 16] == m[..16 * (i + 1)];
  }

  /** The block loop of `encrypt`. */
  method EncryptLoop(t: Tables, rk: seq<Byte>, ctxt: seq<Byte>) returns (dtxt: seq<Byte>)
    requires |rk| == 240 && |ctxt| % 16 == 0
    ensures dtxt == MapChunks(EncryptChunk(t, rk), ctxt)
  {
    dtxt := [];
    ghost var f := EncryptChunk(t, rk);
    for i := 0 to |ctxt| / 16
      invariant dtxt == MapChunks(f, ctxt[..16 * i])
    {
      NextChunk(f, ctxt, i);
      var s := EncryptSlice(t, rk, ctxt, 16 * i);
      dtxt := dtxt + s;
    }
    assert ctxt[..16 * (|ctxt| / 16)] == ctxt;
  }

  /** The block loop of `decrypt`. */
  method DecryptLoop(t: Tables, rk: seq<Byte>, ctxt: seq<Byte>) returns (dtxt: seq<Byte>)
    requires |rk| == 240
    ensures dtxt == DecryptWith(t, rk, ctxt)
  {
    dtxt := [];
    ghost var f := DecryptChunk(t, rk);
    for i := 0 to |ctxt| / 16
      invariant dtxt == MapChunks(f, ctxt[..16 * i])
    {
      NextChunk(f, ctxt, i);
      var s := DecryptSlice(t, rk, ctxt, 16 * i);
      dtxt := dtxt + s;
    }
    assert ctxt[..16 * (|ctxt| / 16)] == ctxt[..|ctxt| / 16 * 16];
  }

  /** `encrypt`, through the memo: IndexError on an empty key, the ciphertext otherwise. */
  method EncryptMessage(keygen: Memoized, m: seq<Byte>, key: seq<Byte>) returns (r: Option<seq<Byte>>)
    requires keygen.Valid()
    modifies keygen
    ensures keygen.Valid()
    ensures r == if key == [] then None else Some(Encrypt(keygen.t, m, key))
  {
    var ctxt := Pad(m, 16);
    var schedule := keygen.Call(key);
    if schedule.None? {
      return None;
    }
    var dtxt := EncryptLoop(keygen.t, schedule.value[..], ctxt);
    r := Some(dtxt);
  }

  /** `decrypt`, through the memo. */
  method DecryptMessage(keygen: Memoized, ctxt: seq<Byte>, key: seq<Byte>) returns (r: Option<seq<Byte>>)
    requires keygen.Valid()
    modifies keygen
    ensures keygen.Valid()
    ensures r == if key == [] then None else Some(Decrypt(keygen.t, ctxt, key))
  {
    var schedule := keygen.Call(key);
    if schedule.None? {
      return None;
    }
    var dtxt := DecryptLoop(keygen.t, schedule.value[..], ctxt);
    r := Some(dtxt);
  }

  // ---------- the main theorems, for the tables of the source ----------

  /** Decrypting what was encrypted returns the message padded with 0xEE. */
  lemma RoundTrip(t: Tables, m: seq<Byte>, key: seq<Byte>)
    requires Standard(t) && key != []
    ensures Decrypt(t, Encrypt(t, m, key), key) == Pad(m, 16)
    ensures Decrypt(t, Encrypt(t, m, key), key)[..|m|] == m
    ensures |Encrypt(t, m, key)| == (|m| + 15) / 16 * 16
  {
    StandardAlgebra(t);
    DecryptEncrypt(t, m, key);
  }

  /** Every block of the padded message is encrypted by AES-256 of FIPS 197 between two transpositions,
      under the first 32 padded key bytes. */
  lemma IsAes(t: Tables, m: seq<Byte>, key: seq<Byte>, i: nat)
    requires Standard(t) && key != [] && 16 * i + 16 <= |Pad(m, 16)|
    ensures F.Standard(Primitives(t)) && |Encrypt(t, m, key)| == |Pad(m, 16)|
    ensures IsAesOf(t, KeyBytes(key), BlockAt(Pad(m, 16), i), BlockAt(Encrypt(t, m, key), i))
  {
    StandardAlgebra(t);
    ScheduleHolds(t, key);
    ChunkAt(EncryptChunk(t, Schedule(t, key)), Pad(m, 16), |Pad(m, 16)| / 16, i);
    EncryptChunkRefines(t, Schedule(t, key), KeyBytes(key), BlockAt(Pad(m, 16), i));
  }
}
