/** `encrypt` and `decrypt` of paradox/lib/crypto.py on one block and on whole messages, as
    functions, with the theorems about them. */
module BlockCipher {
  import opened Wrappers
  import opened Gf256
  import opened CipherSteps
  import opened Rounds
  import F = Fips197

  const ROUNDS := 14

  // ---------- keys ----------

  function Fill(n: nat): (s: seq<Byte>)
    ensures |s| == n && forall i | 0 <= i < n :: s[i] == 0xee
  {
    seq(n, _ => 0xee)
  }

  /** Padding with 0xEE up to a multiple of `unit`. */
  function Pad(s: seq<Byte>, unit: nat): (r: seq<Byte>)
    requires unit == 16 || unit == 32
    ensures |r| % unit == 0 && |s| <= |r| < |s| + unit && r[..|s|] == s
  {
    if |s| % unit != 0 then
      s + Fill(unit - |s| % unit)
    else s
  }

  lemma PadLength(s: seq<Byte>)
    ensures |Pad(s, 16)| == (|s| + 15) / 16 * 16
  {}

  /** The 32 key bytes that reach the schedule. */
  function KeyBytes(k: seq<Byte>): (r: seq<Byte>)
    requires k != []
    ensures |r| == 32
  {
    var padded := Pad(k, 32);
    assert |padded| >= 32;
    padded[..32]
  }

  function Primitives(t: Tables): F.Primitives {
    F.Primitives(t.s, t.xt)
  }

  /** Where byte 0 of word i of the key schedule lies in `rk`; byte j lies 4 * j further on. */
  function WordOffset(i: nat): (r: nat)
    ensures i < 60 ==> r + 12 < 240
  {
    (i - i % 4) * 4 + i % 4
  }

  /** The 240 bytes that `_keygen` returns. */
  function Schedule(t: Tables, k: seq<Byte>): (rk: seq<Byte>)
    requires k != []
    ensures |rk| == 240
  {
    seq(240, n requires 0 <= n < 240 =>
      F.WordByte(F.KeyWord(Primitives(t), KeyBytes(k), 4 * (n / 16) + n % 4), n % 16 / 4))
  }

  function RoundBlock(rk: seq<Byte>, r: nat): Block
    requires |rk| == 240 && r <= ROUNDS
  {
    LoadAt(rk, 16 * r)
  }

  // ---------- rounds ----------

  /** Round r of `encrypt`. */
  function RoundFn(t: Tables, rk: seq<Byte>): (nat, Block) -> Block
    requires |rk| == 240
  {
    (r: nat, a: Block) =>
      if r < ROUNDS then Round(t, a, RoundBlock(rk, r))
      else if r == ROUNDS then LastRound(t, a, RoundBlock(rk, ROUNDS))
      else a
  }

  /** Round r of `decrypt`. */
  function InvRoundFn(t: Tables, rk: seq<Byte>): (nat, Block) -> Block
    requires |rk| == 240
  {
    (r: nat, a: Block) =>
      if r < ROUNDS then InvRound(t, a, RoundBlock(rk, r))
      else if r == ROUNDS then InvLastRound(t, a, RoundBlock(rk, ROUNDS))
      else a
  }

  // ---------- one block ----------

  function EncryptBlock(t: Tables, rk: seq<Byte>, a: Block): Block
    requires |rk| == 240
  {
    Iterate(RoundFn(t, rk), AddKey(a, RoundBlock(rk, 0)), ROUNDS)
  }

  function DecryptBlock(t: Tables, rk: seq<Byte>, a: Block): Block
    requires |rk| == 240
  {
    AddKey(Unwind(InvRoundFn(t, rk), a, ROUNDS), RoundBlock(rk, 0))
  }

  /** Each round of decryption undoes the same round of encryption, whatever the schedule. */
  lemma RoundUndone(t: Tables, rk: seq<Byte>, r: nat, a: Block)
    requires Algebra(t) && |rk| == 240 && r <= ROUNDS
    ensures InvRoundFn(t, rk)(r, RoundFn(t, rk)(r, a)) == a
  {
    if r == ROUNDS {
      InvLastRoundUndoesLastRound(t, a, RoundBlock(rk, ROUNDS));
    } else {
      InvRoundUndoesRound(t, a, RoundBlock(rk, r));
    }
  }

  lemma DecryptEncryptBlock(t: Tables, rk: seq<Byte>, a: Block)
    requires Algebra(t) && |rk| == 240
    ensures DecryptBlock(t, rk, EncryptBlock(t, rk, a)) == a
  {
    var f, g := RoundFn(t, rk), InvRoundFn(t, rk);
    forall r, b | 1 <= r <= ROUNDS
      ensures g(r, f(r, b)) == b
    {
      RoundUndone(t, rk, r, b);
    }
    UnwindIterate(f, g, AddKey(a, RoundBlock(rk, 0)), ROUNDS);
    AddKeyTwice(a, RoundBlock(rk, 0));
  }

  // ---------- messages ----------

  /** `f` on every 16-byte chunk of `m`, in order. */
  function MapChunks(f: seq<Byte> -> seq<Byte>, m: seq<Byte>): (c: seq<Byte>)
    requires |m| % 16 == 0
  {
    if m == [] then []
    else MapChunks(f, m[..|m| - 16]) + f(m[|m| - 16..])
  }

  ghost predicate KeepsLength(f: seq<Byte> -> seq<Byte>) {
    forall s | |s| == 16 :: |f(s)| == 16
  }

  lemma MapChunksAppend(f: seq<Byte> -> seq<Byte>, m: seq<Byte>, last: seq<Byte>)
    requires |m| % 16 == 0 && |last| == 16
    ensures MapChunks(f, m + last) == MapChunks(f, m) + f(last)
  {
    var all := m + last;
    assert all[..|all| - 16] == m && all[|all| - 16..] == last;
  }

  lemma {:induction false} MapChunksInverse(f: seq<Byte> -> seq<Byte>, g: seq<Byte> -> seq<Byte>, m: seq<Byte>)
    requires |m| % 16 == 0 && KeepsLength(f)
    requires forall s | |s| == 16 :: g(f(s)) == s
    ensures |MapChunks(f, m)| == |m| && MapChunks(g, MapChunks(f, m)) == m
  {
    if m != [] {
      var front, last := m[..|m| - 16], m[|m| - 16..];
      assert m == front + last;
      MapChunksInverse(f, g, front);
      MapChunksAppend(f, front, last);
      MapChunksAppend(g, MapChunks(f, front), f(last));
    }
  }

  function EncryptChunk(t: Tables, rk: seq<Byte>): seq<Byte> -> seq<Byte>
    requires |rk| == 240
  {
    (s: seq<Byte>) => if |s| == 16 then Store(EncryptBlock(t, rk, Load(s))) else []
  }

  function DecryptChunk(t: Tables, rk: seq<Byte>): seq<Byte> -> seq<Byte>
    requires |rk| == 240
  {
    (s: seq<Byte>) => if |s| == 16 then Store(DecryptBlock(t, rk, Load(s))) else []
  }

  lemma LoadStore(a: Block)
    ensures Load(Store(a)) == a
  {}

  lemma StoreLoad(s: seq<Byte>)
    requires |s| == 16
    ensures Store(Load(s)) == s
  {}

  lemma DecryptEncryptChunk(t: Tables, rk: seq<Byte>, s: seq<Byte>)
    requires Algebra(t) && |rk| == 240 && |s| == 16
    ensures DecryptChunk(t, rk)(EncryptChunk(t, rk)(s)) == s
  {
    var a := Load(s);
    LoadStore(EncryptBlock(t, rk, a));
    DecryptEncryptBlock(t, rk, a);
    StoreLoad(s);
  }

  /** `encrypt` under a given key schedule. */
  function EncryptWith(t: Tables, rk: seq<Byte>, m: seq<Byte>): seq<Byte>
    requires |rk| == 240
  {
    MapChunks(EncryptChunk(t, rk), Pad(m, 16))
  }

  /** `decrypt` under a given key schedule: trailing bytes short of a block are dropped. */
  function DecryptWith(t: Tables, rk: seq<Byte>, c: seq<Byte>): seq<Byte>
    requires |rk| == 240
  {
    MapChunks(DecryptChunk(t, rk), c[..|c| / 16 * 16])
  }

  /** `encrypt` for a non-empty key. */
  function Encrypt(t: Tables, m: seq<Byte>, key: seq<Byte>): seq<Byte>
    requires key != []
  {
    EncryptWith(t, Schedule(t, key), m)
  }

  /** `decrypt` for a non-empty key. */
  function Decrypt(t: Tables, c: seq<Byte>, key: seq<Byte>): seq<Byte>
    requires key != []
  {
    DecryptWith(t, Schedule(t, key), c)
  }

  lemma WholeBlocks(c: seq<Byte>)
    requires |c| % 16 == 0
    ensures c[..|c| / 16 * 16] == c
  {}

  lemma DecryptEncryptWith(t: Tables, rk: seq<Byte>, m: seq<Byte>)
    requires Algebra(t) && |rk| == 240
    ensures |EncryptWith(t, rk, m)| == |Pad(m, 16)|
    ensures DecryptWith(t, rk, EncryptWith(t, rk, m)) == Pad(m, 16)
  {
    var f, g := EncryptChunk(t, rk), DecryptChunk(t, rk);
    forall s | |s| == 16
      ensures g(f(s)) == s
    {
      DecryptEncryptChunk(t, rk, s);
    }
    MapChunksInverse(f, g, Pad(m, 16));
    WholeBlocks(EncryptWith(t, rk, m));
  }

  /** Decryption returns the padded message, for every message and every non-empty key. */
  lemma DecryptEncrypt(t: Tables, m: seq<Byte>, key: seq<Byte>)
    requires Algebra(t) && key != []
    ensures |Encrypt(t, m, key)| == (|m| + 15) / 16 * 16
    ensures Decrypt(t, Encrypt(t, m, key), key) == Pad(m, 16)
    ensures Decrypt(t, Encrypt(t, m, key), key)[..|m|] == m
  {
    DecryptEncryptWith(t, Schedule(t, key), m);
    PadLength(m);
  }

  // ---------- refinement of FIPS 197 ----------

  /** The state of the standard that a block stands for: the source keeps it row by row. */
  function Columns(a: Block): F.State {
    F.State(F.Word(a.a0, a.a4, a.a8, a.a12), F.Word(a.a1, a.a5, a.a9, a.a13),
            F.Word(a.a2, a.a6, a.a10, a.a14), F.Word(a.a3, a.a7, a.a11, a.a15))
  }

  /** `rk` holds the words of the standard's key schedule for `key`. */
  ghost predicate Holds(rk: seq<Byte>, p: F.Primitives, key: seq<Byte>) {
    && |rk| == 240 && |key| == 32
    && forall i: nat, j: nat {:trigger ByteHolds(rk, p, key, i, j)} | i < 60 && j < 4 :: ByteHolds(rk, p, key, i, j)
  }

  /** Byte j of word i is at its place. */
  ghost predicate ByteHolds(rk: seq<Byte>, p: F.Primitives, key: seq<Byte>, i: nat, j: nat)
    requires |rk| == 240 && |key| == 32 && i < 60 && j < 4
  {
    rk[WordOffset(i) + 4 * j] == F.WordByte(F.KeyWord(p, key, i), j)
  }

  lemma ScheduleHolds(t: Tables, k: seq<Byte>)
    requires k != []
    ensures Holds(Schedule(t, k), Primitives(t), KeyBytes(k))
  {
    var rk := Schedule(t, k);
    forall i: nat, j: nat | i < 60 && j < 4
      ensures ByteHolds(rk, Primitives(t), KeyBytes(k), i, j)
    {
      OffsetInverse(i, j);
    }
  }

  lemma OffsetParts(q: nat, c: nat)
    requires c < 4
    ensures WordOffset(4 * q + c) == 16 * q + c
  {}

  lemma OffsetInverse(i: nat, j: nat)
    requires i < 60 && j < 4
    ensures var n := WordOffset(i) + 4 * j;
            n < 240 && 4 * (n / 16) + n % 4 == i && n % 16 / 4 == j
  {
    var q, r := i / 4, i % 4;
    OffsetParts(q, r);
    IndexParts(q, j, r);
  }

  lemma IndexParts(q: nat, j: nat, c: nat)
    requires j < 4 && c < 4
    ensures var n := 16 * q + 4 * j + c;
            n / 16 == q && n % 16 == 4 * j + c && n % 4 == c && n % 16 / 4 == j
  {}

  lemma WordBytes(rk: seq<Byte>, p: F.Primitives, key: seq<Byte>, i: nat, o: nat)
    requires Holds(rk, p, key) && i < 60 && o == WordOffset(i)
    ensures F.KeyWord(p, key, i) == F.Word(rk[o], rk[o + 4], rk[o + 8], rk[o + 12])
  {
    var w := F.KeyWord(p, key, i);
    assert ByteHolds(rk, p, key, i, 0) && ByteHolds(rk, p, key, i, 1);
    assert ByteHolds(rk, p, key, i, 2) && ByteHolds(rk, p, key, i, 3);
  }

  lemma RoundWord(rk: seq<Byte>, p: F.Primitives, key: seq<Byte>, r: nat, c: nat)
    requires Holds(rk, p, key) && r <= ROUNDS && c < 4
    ensures var o := 16 * r + c;
            F.KeyWord(p, key, 4 * r + c) == F.Word(rk[o], rk[o + 4], rk[o + 8], rk[o + 12])
  {
    OffsetParts(r, c);
    WordBytes(rk, p, key, 4 * r + c, 16 * r + c);
  }

  lemma RoundKeyRefines(rk: seq<Byte>, p: F.Primitives, key: seq<Byte>, r: nat)
    requires Holds(rk, p, key) && r <= ROUNDS
    ensures Columns(RoundBlock(rk, r)) == F.RoundKey(p, key, r)
  {
    RoundWord(rk, p, key, r, 0);
    RoundWord(rk, p, key, r, 1);
    RoundWord(rk, p, key, r, 2);
    RoundWord(rk, p, key, r, 3);
  }

  lemma MixWordRefines(t: Tables, x: Byte, y: Byte, z: Byte, w: Byte)
    requires Additive(t.xt)
    ensures var tmp := Xor4(x, y, z, w);
            F.Word(MixByte(t, x, y, tmp), MixByte(t, y, z, tmp), MixByte(t, z, w, tmp), MixByte(t, w, x, tmp))
            == F.MixWord(Primitives(t), F.Word(x, y, z, w))
  {
    var p := Primitives(t);
    RotateFour(w, x, y, z);
    RotateFour(z, w, x, y);
    RotateFour(y, z, w, x);
    MixByteForm(t, x, y, z, w);
    MixByteForm(t, y, z, w, x);
    RotateFour(t.xt(y), F.Times3(p, z), w, x);
    MixByteForm(t, z, w, x, y);
    RotateFour(x, y, t.xt(z), F.Times3(p, w));
    RotateFour(F.Times3(p, w), x, y, t.xt(z));
    RotateFour(t.xt(z), F.Times3(p, w), x, y);
    RotateFour(y, t.xt(z), F.Times3(p, w), x);
    MixByteForm(t, w, x, y, z);
    RotateFour(F.Times3(p, x), y, z, t.xt(w));
  }

  lemma MixColumnRefines(t: Tables, a: Block)
    requires Additive(t.xt)
    ensures Columns(MixColumn(t, a)) == F.MixColumns(Primitives(t), Columns(a))
  {
    MixWordRefines(t, a.a0, a.a4, a.a8, a.a12);
    MixWordRefines(t, a.a1, a.a5, a.a9, a.a13);
    MixWordRefines(t, a.a2, a.a6, a.a10, a.a14);
    MixWordRefines(t, a.a3, a.a7, a.a11, a.a15);
  }

  lemma AddKeyRefines(a: Block, k: Block)
    ensures Columns(AddKey(a, k)) == F.AddRoundKey(Columns(a), Columns(k))
  {}

  lemma SubShiftRefines(t: Tables, a: Block)
    ensures Columns(ShiftRow(MapBlock(t.s, a))) == F.ShiftRows(F.SubBytes(Primitives(t), Columns(a)))
  {}

  lemma RoundRefines(t: Tables, a: Block, k: Block)
    requires Additive(t.xt)
    ensures var p := Primitives(t);
            Columns(Round(t, a, k)) ==
            F.AddRoundKey(F.MixColumns(p, F.ShiftRows(F.SubBytes(p, Columns(a)))), Columns(k))
  {
    var shifted := ShiftRow(MapBlock(t.s, a));
    SubShiftRefines(t, a);
    MixColumnRefines(t, shifted);
    AddKeyRefines(MixColumn(t, shifted), k);
  }

  lemma RoundFnRefines(t: Tables, rk: seq<Byte>, key: seq<Byte>, a: Block, r: nat)
    requires Additive(t.xt) && Holds(rk, Primitives(t), key) && r < ROUNDS
    ensures Columns(RoundFn(t, rk)(r, a)) == F.FullRound(Primitives(t), key)(r, Columns(a))
  {
    RoundRefines(t, a, RoundBlock(rk, r));
    RoundKeyRefines(rk, Primitives(t), key, r);
  }

  lemma LastRoundRefines(t: Tables, a: Block, k: Block)
    ensures Columns(LastRound(t, a, k)) ==
            F.AddRoundKey(F.ShiftRows(F.SubBytes(Primitives(t), Columns(a))), Columns(k))
  {
    SubShiftRefines(t, a);
    AddKeyRefines(ShiftRow(MapBlock(t.s, a)), k);
  }

  lemma RoundsRefine(t: Tables, rk: seq<Byte>, key: seq<Byte>, a: Block, n: nat)
    requires Additive(t.xt) && Holds(rk, Primitives(t), key) && n < ROUNDS
    ensures Columns(Iterate(RoundFn(t, rk), a, n)) == Iterate(F.FullRound(Primitives(t), key), Columns(a), n)
  {
    var f, g := RoundFn(t, rk), F.FullRound(Primitives(t), key);
    forall k: nat, b | 1 <= k <= n
      ensures Columns(f(k, b)) == g(k, Columns(b))
    {
      RoundFnRefines(t, rk, key, b, k);
    }
    IterateRefines(f, g, Columns, a, n);
  }

  lemma EncryptBlockRefines(t: Tables, rk: seq<Byte>, key: seq<Byte>, a: Block)
    requires Additive(t.xt) && Holds(rk, Primitives(t), key)
    ensures Columns(EncryptBlock(t, rk, a)) == F.Cipher(Primitives(t), key, Columns(a))
  {
    var first := AddKey(a, RoundBlock(rk, 0));
    RoundKeyRefines(rk, Primitives(t), key, 0);
    AddKeyRefines(a, RoundBlock(rk, 0));
    RoundsRefine(t, rk, key, first, ROUNDS - 1);
    RoundKeyRefines(rk, Primitives(t), key, ROUNDS);
    LastRoundRefines(t, Iterate(RoundFn(t, rk), first, ROUNDS - 1), RoundBlock(rk, ROUNDS));
  }

  function Transpose(s: seq<Byte>): (r: seq<Byte>)
    requires |s| == 16
    ensures |r| == 16
  {
    [s[0], s[4], s[8], s[12], s[1], s[5], s[9], s[13],
     s[2], s[6], s[10], s[14], s[3], s[7], s[11], s[15]]
  }

  lemma StoreColumns(a: Block)
    ensures Store(a) == Transpose(F.BytesOf(Columns(a)))
  {}

  lemma LoadColumns(m: seq<Byte>)
    requires |m| == 16
    ensures Columns(Load(m)) == F.StateOf(Transpose(m))
  {}

  /** The 16 bytes of block i. */
  function BlockAt(s: seq<Byte>, i: nat): (r: seq<Byte>)
    requires 16 * i + 16 <= |s|
    ensures |r| == 16
  {
    s[16 * i..16 * i + 16]
  }

  lemma BlocksOfSum(front: seq<Byte>, last: seq<Byte>, i: nat)
    requires |last| == 16
    ensures 16 * i + 16 <= |front| ==> BlockAt(front + last, i) == BlockAt(front, i)
    ensures 16 * i == |front| ==> BlockAt(front + last, i) == last
  {}

  lemma ChunkAppended(f: seq<Byte> -> seq<Byte>, front: seq<Byte>, last: seq<Byte>, i: nat)
    requires |front| % 16 == 0 && |last| == |f(last)| == 16 && 16 * i <= |front| == |MapChunks(f, front)|
    requires 16 * i + 16 <= |front| ==> BlockAt(MapChunks(f, front), i) == f(BlockAt(front, i))
    requires 16 * i + 16 <= |front| || 16 * i == |front|
    ensures (|front + last|) % 16 == 0 && |MapChunks(f, front + last)| == |front + last|
    ensures BlockAt(MapChunks(f, front + last), i) == f(BlockAt(front + last, i))
  {
    MapChunksAppend(f, front, last);
    BlocksOfSum(front, last, i);
    BlocksOfSum(MapChunks(f, front), f(last), i);
  }

  /** Block i of the result is what f makes of block i. */
  lemma {:induction false} ChunkAt(f: seq<Byte> -> seq<Byte>, m: seq<Byte>, n: nat, i: nat)
    requires |m| == 16 * n && KeepsLength(f) && i < n
    ensures |MapChunks(f, m)| == |m| && BlockAt(MapChunks(f, m), i) == f(BlockAt(m, i))
    decreases n
  {
    var front, last := m[..16 * (n - 1)], m[16 * (n - 1)..];
    assert front + last == m;
    if n > 1 {
      ChunkAt(f, front, n - 1, if i < n - 1 then i else 0);
    }
    ChunkAppended(f, front, last, i);
  }

  /** c is what AES-256 with the 32 key bytes makes of the block m, between two transpositions. */
  ghost predicate IsAesOf(t: Tables, key: seq<Byte>, m: seq<Byte>, c: seq<Byte>) {
    match |key| == 32 && |m| == 16
    case true => c == Transpose(F.CipherBytes(Primitives(t), key, Transpose(m)))
    case false => false
  }

  lemma EncryptChunkRefines(t: Tables, rk: seq<Byte>, key: seq<Byte>, m: seq<Byte>)
    requires Additive(t.xt) && Holds(rk, Primitives(t), key) && |m| == 16
    ensures IsAesOf(t, key, m, EncryptChunk(t, rk)(m))
  {
    EncryptBlockRefines(t, rk, key, Load(m));
    LoadColumns(m);
    StoreColumns(EncryptBlock(t, rk, Load(m)));
  }
}
