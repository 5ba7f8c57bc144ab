/** The serial framer: `checksum` and `SerialConnectionProtocol.data_received`
    (paradox/connections/protocols.py), with the sender's `calculate_checksum`
    (paradox/hardware/common.py). */
module SerialFramer {
  import opened Wrappers
  import opened Peeling

  /** A byte as a number: checksums and lengths are arithmetic. */
  type Octet = b: int | 0 <= b < 256

  // ---------- checksums ----------

  function Sum(s: seq<Octet>): nat {
    if s == [] then 0 else Sum(s[..|s| - 1]) + s[|s| - 1]
  }

  /** `calculate_checksum` */
  method CalculateChecksum(message: seq<Octet>) returns (c: seq<Octet>)
    ensures c == [Sum(message) % 256]
  {
    var r: int := 0;
    for i := 0 to |message|
      invariant r == Sum(message[..i])
    {
      assert message[..i + 1][..i] == message[..i];
      r := r + message[i];
    }
    assert message[..|message|] == message;
    r := r % 256;
    c := [r];
  }

  /** What `checksum` accepts: long enough, and the last byte is the sum of the others modulo 256. */
  predicate GoodFrame(data: seq<Octet>, minLength: int) {
    |data| >= minLength && |data| > 0 && Sum(data[..|data| - 1]) % 256 == data[|data| - 1]
  }

  /** `checksum`; None where it raises IndexError, looking for the last byte of no data. */
  method Checksum(data: Option<seq<Octet>>, minLength: int) returns (ok: Option<bool>)
    ensures ok.None? <==> data == Some([]) && minLength <= 0
    ensures ok.Some? ==> (ok.value <==> data.Some? && GoodFrame(data.value, minLength))
  {
    if data.None? || |data.value| < minLength {
      return Some(false);
    }
    var c: int := 0;
    if data.value == [] {
      return None;
    }
    var body, last := data.value[..|data.value| - 1], data.value[|data.value| - 1];
    for i := 0 to |body|
      invariant c == Sum(body[..i])
    {
      assert body[..i + 1][..i] == body[..i];
      c := c + body[i];
    }
    assert body[..|body|] == body;
    ok := Some(c % 256 == last);
  }

  // ---------- frame lengths ----------

  function MinLength(variable: bool): nat {
    if variable then 4 else 37
  }

  /** The length that the first three bytes announce. */
  function FrameLength(variable: bool, b0: Octet, b1: Octet, b2: Octet): nat {
    if !variable then 37
    else
      var nibble := b0 / 16;
      if nibble == 0 then 37
      else if nibble in {1, 3, 4, 5, 6, 7, 8, 9} then (if 0 < b1 <= 71 then b1 else 37)
      else if nibble in {0xA, 0xB, 0xD} then b1
      else if nibble == 0xC then b1 * 256 + b2
      else if nibble == 0xE then (if b1 < 37 || b1 == 0xFF then 37 else b1)
      else 37
  }

  function Announced(variable: bool, buffer: seq<Octet>): nat
    requires |buffer| >= 3
  {
    FrameLength(variable, buffer[0], buffer[1], buffer[2])
  }

  // ---------- parses ----------

  /** One turn of the loop either delivers a frame or drops a byte. */
  datatype Item = Frame(bytes: seq<Octet>) | Dropped(byte: Octet)

  function BytesOf(item: Item): seq<Octet> {
    match item
    case Frame(bytes) => bytes
    case Dropped(byte) => [byte]
  }

  /** The frames among the items, in order. */
  function Frames(items: seq<Item>): seq<seq<Octet>> {
    if items == [] then []
    else (if items[0].Frame? then [items[0].bytes] else []) + Frames(items[1..])
  }

  /** The buffer holds enough for a decision. */
  predicate Decided(variable: bool, buffer: seq<Octet>) {
    |buffer| >= MinLength(variable) && |buffer| >= Announced(variable, buffer)
  }

  /** What has to come off the front of a decided buffer: a good frame of the announced length if there
      is one, else one byte. */
  predicate ComesOff(variable: bool, buffer: seq<Octet>, item: Item)
    requires Decided(variable, buffer)
  {
    var head := buffer[..Announced(variable, buffer)];
    if GoodFrame(head, MinLength(variable)) then item == Frame(head) else item == Dropped(buffer[0])
  }

  /** The framer's rule: what has to come off the front, and when. */
  function FramerRule(variable: bool): Rule<Octet, Item> {
    Rule((buffer: seq<Octet>, item: Item) => Takes(variable, buffer, item), BytesOf)
  }

  predicate Takes(variable: bool, buffer: seq<Octet>, item: Item) {
    Decided(variable, buffer) && ComesOff(variable, buffer, item)
  }

  lemma TakesLawful(variable: bool, buffer: seq<Octet>, item: Item, more: seq<Octet>)
    requires Takes(variable, buffer, item)
    ensures 1 <= |BytesOf(item)| <= |buffer| && BytesOf(item) == buffer[..|BytesOf(item)|]
    ensures Takes(variable, buffer + more, item)
  {
    var n := Announced(variable, buffer);
    assert (buffer + more)[..n] == buffer[..n];
  }

  lemma FramerLawful(variable: bool)
    ensures Lawful(FramerRule(variable))
  {
    var rule := FramerRule(variable);
    forall buffer, item, other, more
      ensures RuleAt(rule, buffer, item, other, more)
    {
      if Takes(variable, buffer, item) {
        TakesLawful(variable, buffer, item, more);
      }
    }
  }

  /** Nothing can come off exactly when the buffer is not decided. */
  lemma StuckIsUndecided(variable: bool, buffer: seq<Octet>)
    ensures Stuck(FramerRule(variable), buffer) <==> !Decided(variable, buffer)
  {
    if Decided(variable, buffer) {
      var head := buffer[..Announced(variable, buffer)];
      var item := if GoodFrame(head, MinLength(variable)) then Frame(head) else Dropped(buffer[0]);
      assert FramerRule(variable).off(buffer, item);
    }
  }

  /** Every delivered frame passes the checksum and has the length it announces. */
  lemma {:induction false} DeliveredFramesAreGood(variable: bool, stream: seq<Octet>, items: seq<Item>,
          rest: seq<Octet>, i: nat)
    requires Steps(FramerRule(variable), stream, items, rest) && i < |items| && items[i].Frame?
    ensures var f := items[i].bytes;
      GoodFrame(f, MinLength(variable)) && |f| == Announced(variable, f)
    decreases |items|
  {
    if i > 0 {
      DeliveredFramesAreGood(variable, stream[|BytesOf(items[0])|..], items[1..], rest, i - 1);
    }
  }

  /** What stays in the buffer: too little for a header, or the start of one announced frame. */
  lemma LeftoverBound(variable: bool, rest: seq<Octet>)
    requires !Decided(variable, rest)
    ensures |rest| <= 65534
    ensures |rest| > 254 ==> variable && rest[0] / 16 == 0xC
    ensures !variable ==> |rest| < 37
  {
    if |rest| >= MinLength(variable) {
      assert |rest| < Announced(variable, rest);
    }
  }

  lemma {:induction false} FramesAppend(xs: seq<Item>, ys: seq<Item>)
    ensures Frames(xs + ys) == Frames(xs) + Frames(ys)
  {
    if xs == [] {
      assert xs + ys == ys;
    } else {
      FramesAppend(xs[1..], ys);
      assert (xs + ys)[1..] == xs[1..] + ys;
    }
  }

  // ---------- well-formed streams ----------

  /** A frame as the sender builds it: its length rule gives its own length, at least the minimum, and
      the checksum is appended. */
  ghost predicate WellFormed(variable: bool, f: seq<Octet>) {
    |f| >= MinLength(variable) && Announced(variable, f) == |f| && f[|f| - 1] == Sum(f[..|f| - 1]) % 256
  }

  function Items(frames: seq<seq<Octet>>): seq<Item> {
    if frames == [] then [] else [Frame(frames[0])] + Items(frames[1..])
  }

  lemma WellFormedTaken(variable: bool, f: seq<Octet>, more: seq<Octet>)
    requires WellFormed(variable, f)
    ensures FramerRule(variable).off(f + more, Frame(f)) && (f + more)[|f|..] == more
  {
    assert (f + more)[..|f|] == f;
  }

  lemma {:induction false} WellFormedStreamParses(variable: bool, frames: seq<seq<Octet>>)
    requires forall i | 0 <= i < |frames| :: WellFormed(variable, frames[i])
    ensures IsParse(FramerRule(variable), Join(frames), Items(frames), [])
  {
    StuckIsUndecided(variable, []);
    if frames != [] {
      WellFormedStreamParses(variable, frames[1..]);
      WellFormedTaken(variable, frames[0], Join(frames[1..]));
      assert Items(frames)[1..] == Items(frames[1..]);
    }
  }

  lemma {:induction false} FramesOfItems(frames: seq<seq<Octet>>)
    ensures Frames(Items(frames)) == frames
  {
    if frames != [] {
      FramesOfItems(frames[1..]);
      assert Items(frames)[1..] == Items(frames[1..]);
      assert frames == [frames[0]] + frames[1..];
    }
  }

  /** PacketLength over an Int8ub: the size of all fields and the checksum; None where it does not fit. */
  function PacketLength(fields: nat, checksum: nat): Option<Octet> {
    if fields + checksum < 256 then Some(fields + checksum) else None
  }

  /** The first byte and the length are such that the framer takes the length from the second byte. */
  predicate Recognised(head: Octet, length: nat) {
    var nibble := head / 16;
    length >= 4 &&
    if nibble in {1, 3, 4, 5, 6, 7, 8, 9} then length <= 71
    else if nibble in {0xA, 0xB, 0xD} then true
    else if nibble == 0xE then 37 <= length < 255
    else nibble != 0xC && length == 37
  }

  /** The sender's frame: the first byte, its PacketLength, the other fields, and PacketChecksum. It is
      well formed for the framer exactly if the framer recognises a length under that first byte. */
  method BuildFrame(head: Octet, others: seq<Octet>) returns (f: Option<seq<Octet>>)
    ensures f.None? <==> |others| + 3 >= 256
    ensures f.Some? ==> |f.value| == |others| + 3 && f.value[0] == head && f.value[1] == |f.value|
                        && f.value[2..|f.value| - 1] == others && GoodFrame(f.value, 0)
    ensures f.Some? ==> (WellFormed(true, f.value) <==> Recognised(head, |f.value|))
  {
    var length := PacketLength(2 + |others|, 1);
    if length.None? {
      return None;
    }
    var fields := [head, length.value] + others;
    var c := CalculateChecksum(fields);
    var frame := fields + c;
    assert frame[..|frame| - 1] == fields;
    f := Some(frame);
  }

  // ---------- the protocol object ----------

  /** The body of the loop up to the cut: a frame to deliver, a byte to drop, or too little input. */
  method NextItem(variable: bool, buffer: seq<Octet>) returns (enough: bool, item: Item)
    requires |buffer| >= MinLength(variable)
    ensures enough <==> Decided(variable, buffer)
    ensures enough ==> FramerRule(variable).off(buffer, item) && 1 <= |BytesOf(item)| <= |buffer|
  {
    item := Dropped(buffer[0]);
    var n := Announced(variable, buffer);
    enough := |buffer| >= n;
    if enough {
      var frame := buffer[..n];
      var ok := Checksum(Some(frame), MinLength(variable));
      if ok.value {
        item := Frame(frame);
      }
    }
  }

  class SerialConnectionProtocol {
    const variable: bool
    var buffer: seq<Octet>
    var delivered: seq<seq<Octet>>     // what handler.on_message has been called with
    ghost var received: seq<Octet>     // everything data_received has been given
    ghost var items: seq<Item>

    /** The history so far is the parse of everything received. */
    ghost predicate Valid()
      reads this
    {
      IsParse(FramerRule(variable), received, items, buffer) && delivered == Frames(items)
    }

    constructor (variable: bool)
      ensures Valid() && received == [] && this.variable == variable && delivered == []
    {
      this.variable := variable;
      buffer, delivered, received, items := [], [], [], [];
      new;
      StuckIsUndecided(variable, []);
    }

    /** One chunk of input. The state afterwards depends on the bytes received, not on the chunks. */
    method DataReceived(data: seq<Octet>)
      requires Valid()
      modifies this
      ensures Valid()
      ensures received == old(received) + data
      ensures old(items) <= items && old(delivered) <= delivered
    {
      buffer := buffer + data;
      ghost var taken := Drain(buffer);
      FramerLawful(variable);
      ParseExtends(FramerRule(variable), received, items, old(buffer), data, taken, buffer);
      FramesAppend(items, taken);
      received := received + data;
      items := items + taken;
    }

    /** Chunk after chunk. */
    method Feed(chunks: seq<seq<Octet>>)
      requires Valid()
      modifies this
      ensures Valid() && received == old(received) + Join(chunks)
    {
      assert chunks[0..] == chunks;
      for i := 0 to |chunks|
        invariant Valid() && received + Join(chunks[i..]) == old(received) + Join(chunks)
      {
        assert chunks[i..][0] == chunks[i] && chunks[i..][1..] == chunks[i + 1..];
        assert received + (chunks[i] + Join(chunks[i + 1..])) == (received + chunks[i]) + Join(chunks[i + 1..]);
        DataReceived(chunks[i]);
      }
      assert received + [] == received;
    }

    /** The loop of `data_received`. */
    method Drain(ghost before: seq<Octet>) returns (ghost taken: seq<Item>)
      requires before == buffer
      modifies this`buffer, this`delivered
      ensures delivered == old(delivered) + Frames(taken)
      ensures IsParse(FramerRule(variable), before, taken, buffer)
    {
      ghost var rule := FramerRule(variable);
      FramerLawful(variable);
      taken := [];
      var minLength := MinLength(variable);
      while |buffer| >= minLength
        invariant delivered == old(delivered) + Frames(taken)
        invariant Steps(rule, before, taken, buffer)
        decreases |buffer|
      {
        var enough, item := NextItem(variable, buffer);
        if !enough {
          break;
        }
        StepsOneMore(rule, before, taken, buffer, item);
        FramesAppend(taken, [item]);
        buffer := buffer[|BytesOf(item)|..];
        if item.Frame? {
          delivered := delivered + [item.bytes];
        }
        taken := taken + [item];
      }
      StuckIsUndecided(variable, buffer);
    }
  }

  // ---------- the claims about the object's history ----------

  /** Two objects that have received the same bytes, in whatever chunks, have delivered the same frames
      and hold the same bytes. */
  lemma ChunksDoNotMatter(p: SerialConnectionProtocol, q: SerialConnectionProtocol)
    requires p.Valid() && q.Valid() && p.variable == q.variable && p.received == q.received
    ensures p.delivered == q.delivered && p.buffer == q.buffer
  {
    FramerLawful(p.variable);
    ParseUnique(FramerRule(p.variable), p.received, p.items, p.buffer, q.items, q.buffer);
  }

  /** So a stream may be cut into chunks in any two ways. */
  method CutTwice(variable: bool, chunks: seq<seq<Octet>>, others: seq<seq<Octet>>)
    returns (p: SerialConnectionProtocol, q: SerialConnectionProtocol)
    requires Join(chunks) == Join(others)
    ensures p.delivered == q.delivered && p.buffer == q.buffer
  {
    p := new SerialConnectionProtocol(variable);
    p.Feed(chunks);
    q := new SerialConnectionProtocol(variable);
    q.Feed(others);
    ChunksDoNotMatter(p, q);
  }

  /** Delivered frames and dropped bytes, in order, followed by the buffer, are all input ever
      received; the buffer is bounded. */
  lemma BytesConserved(variable: bool, received: seq<Octet>, items: seq<Item>, buffer: seq<Octet>)
    requires IsParse(FramerRule(variable), received, items, buffer)
    ensures Concat(FramerRule(variable), items) + buffer == received
    ensures |buffer| <= 65534
    ensures |buffer| > 254 ==> variable && buffer[0] / 16 == 0xC
    ensures !variable ==> |buffer| < 37
  {
    FramerLawful(variable);
    Conservation(FramerRule(variable), received, items, buffer);
    StuckIsUndecided(variable, buffer);
    LeftoverBound(variable, buffer);
  }

  /** A concatenation of well-formed frames is delivered as exactly that list, with an empty buffer
      left. */
  lemma WellFormedStreamDelivered(variable: bool, frames: seq<seq<Octet>>, items: seq<Item>, buffer: seq<Octet>)
    requires forall i | 0 <= i < |frames| :: WellFormed(variable, frames[i])
    requires IsParse(FramerRule(variable), Join(frames), items, buffer)
    ensures Frames(items) == frames && buffer == []
  {
    WellFormedStreamParses(variable, frames);
    FramesOfItems(frames);
    FramerLawful(variable);
    ParseUnique(FramerRule(variable), Join(frames), items, buffer, Items(frames), []);
  }
}
