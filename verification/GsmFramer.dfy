/** The CRLF framer with echo suppression: `SerialConnectionProtocol` of
    paradox/interfaces/text/gsm.py. */
module GsmFramer {
  import opened Wrappers
  import opened Peeling

  const CR: Byte := 0x0d
  const LF: Byte := 0x0a

  predicate CrlfAt(s: seq<Byte>, r: nat) {
    r + 1 < |s| && s[r] == CR && s[r + 1] == LF
  }

  /** The position of the first CRLF, or -1. */
  method Find(s: seq<Byte>) returns (r: int)
    ensures -1 <= r < |s|
    ensures r >= 0 ==> CrlfAt(s, r) && forall k: nat | k < r :: !CrlfAt(s, k)
    ensures r < 0 ==> forall k: nat :: !CrlfAt(s, k)
  {
    r := 0;
    while r < |s|
      invariant 0 <= r <= |s|
      invariant forall k: nat | k < r :: !CrlfAt(s, k)
    {
      if r + 1 < |s| && s[r] == CR && s[r + 1] == LF {
        return;
      }
      r := r + 1;
    }
    r := -1;
  }

  /** One turn of the loop removes either the text before a CRLF or a CRLF at the front. */
  datatype Item = Segment(bytes: seq<Byte>) | Crlf

  function BytesOf(item: Item): seq<Byte> {
    match item
    case Segment(bytes) => bytes
    case Crlf => [CR, LF]
  }

  ghost predicate Takes(buffer: seq<Byte>, item: Item) {
    match item
    case Segment(bytes) =>
      && bytes != [] && bytes <= buffer && CrlfAt(buffer, |bytes|)
      && forall k: nat | k < |bytes| :: !CrlfAt(buffer, k)
    case Crlf => CrlfAt(buffer, 0)
  }

  ghost function FramerRule(): Rule<Byte, Item> {
    Rule(Takes, BytesOf)
  }

  lemma FramerLawful()
    ensures Lawful(FramerRule())
  {
    forall buffer, item, other, more
      ensures RuleAt(FramerRule(), buffer, item, other, more)
    {
      if Takes(buffer, item) {
        TakesLawful(buffer, item, other, more);
      }
    }
  }

  lemma TakesLawful(buffer: seq<Byte>, item: Item, other: Item, more: seq<Byte>)
    requires Takes(buffer, item)
    ensures 1 <= |BytesOf(item)| <= |buffer| && BytesOf(item) == buffer[..|BytesOf(item)|]
    ensures Takes(buffer, other) ==> other == item
    ensures Takes(buffer + more, item)
  {
    if item.Segment? {
      var n := |item.bytes|;
      assert CrlfAt(buffer + more, n);
      forall k: nat | k < n
        ensures !CrlfAt(buffer + more, k)
      {
        assert !CrlfAt(buffer, k);
      }
      if other.Segment? && Takes(buffer, other) {
        assert |other.bytes| == n;
        assert other.bytes == buffer[..n] && item.bytes == buffer[..n];
      }
    }
  }

  lemma StuckIsNoCrlf(buffer: seq<Byte>)
    requires forall k: nat :: !CrlfAt(buffer, k)
    ensures Stuck(FramerRule(), buffer)
  {}

  // ---------- echo suppression ----------

  /** What happens to the protocol, in order. */
  datatype Event = Sent(message: seq<Byte>) | Seen(item: Item)

  function ItemsOf(log: seq<Event>): seq<Item> {
    if log == [] then []
    else ItemsOf(log[..|log| - 1]) + match log[|log| - 1] case Sent(_) => [] case Seen(item) => [item]
  }

  datatype Output = Output(delivered: seq<seq<Byte>>, echo: seq<Byte>)

  function Next(out: Output, event: Event): Output {
    match event
    case Sent(message) => out.(echo := message)
    case Seen(Crlf) => out
    case Seen(Segment(bytes)) =>
      if out.echo == bytes then out.(echo := []) else out.(delivered := out.delivered + [bytes])
  }

  /** The messages delivered and the echo still pending after the events. */
  function Replay(log: seq<Event>): Output {
    if log == [] then Output([], []) else Next(Replay(log[..|log| - 1]), log[|log| - 1])
  }

  class SerialConnectionProtocol {
    var buffer: seq<Byte>
    var lastMessage: seq<Byte>
    var delivered: seq<seq<Byte>>     // what handler.on_message has been called with
    ghost var received: seq<Byte>
    ghost var log: seq<Event>

    ghost predicate Valid()
      reads this
    {
      && IsParse(FramerRule(), received, ItemsOf(log), buffer)
      && Replay(log) == Output(delivered, lastMessage)
    }

    constructor ()
      ensures Valid() && received == [] && log == [] && buffer == lastMessage == [] && delivered == []
    {
      buffer, lastMessage, delivered := [], [], [];
      received, log := [], [];
    }

    /** `send_message`: remember what will be echoed. */
    method SendMessage(message: seq<Byte>) returns (written: seq<Byte>)
      requires Valid()
      modifies this
      ensures Valid() && received == old(received) && log == old(log) + [Sent(message)]
      ensures written == message + [CR, LF]
      ensures lastMessage == message && buffer == old(buffer) && delivered == old(delivered)
    {
      lastMessage := message;
      written := message + [CR, LF];
      assert (log + [Sent(message)])[..|log|] == log;
      assert ItemsOf(log) + [] == ItemsOf(log);
      log := log + [Sent(message)];
    }

    /** The body of the loop of `data_received`, with the first CRLF at r. */
    method TakeAt(r: nat, ghost item: Item)
      requires r < |buffer| && item == (if r == 0 then Crlf else Segment(buffer[..r])) && Takes(buffer, item)
      requires Replay(log) == Output(delivered, lastMessage)
      modifies this
      ensures received == old(received) && log == old(log) + [Seen(item)]
      ensures |BytesOf(item)| <= |old(buffer)| && buffer == old(buffer)[|BytesOf(item)|..]
      ensures Replay(log) == Output(delivered, lastMessage)
    {
      LogItem(log, item);
      log := log + [Seen(item)];
      if r == 0 {
        buffer := buffer[2..];
        return;
      }
      var frame := buffer[..r];
      buffer := buffer[r..];
      if lastMessage == frame {
        lastMessage := [];
      } else if |frame| > 0 {
        delivered := delivered + [frame];
      }
    }

    /** One chunk of input. */
    method DataReceived(data: seq<Byte>)
      requires Valid()
      modifies this
      ensures Valid() && received == old(received) + data
      ensures old(log) <= log && OnlySeen(log[|old(log)|..])
      ensures buffer == Split(old(buffer) + data).rest
      ensures var texts := NonEmpty(Split(old(buffer) + data).segments);
        && delivered == old(delivered) + RemoveFirst(texts, old(lastMessage))
        && lastMessage == if old(lastMessage) in texts then [] else old(lastMessage)
    {
      buffer := buffer + data;
      ghost var taken := Drain(buffer);
      ParseExtends(FramerRule(), received, ItemsOf(old(log)), old(buffer), data, taken, buffer);
      ItemsAfter(old(log), taken);
      DeliveryOfStream(old(log), old(buffer) + data, taken, buffer);
      received := received + data;
    }

    /** The loop of `data_received`. */
    method Drain(ghost before: seq<Byte>) returns (ghost taken: seq<Item>)
      requires before == buffer && Replay(log) == Output(delivered, lastMessage)
      modifies this
      ensures received == old(received) && log == old(log) + SeenAll(taken)
      ensures Replay(log) == Output(delivered, lastMessage)
      ensures Lawful(FramerRule()) && IsParse(FramerRule(), before, taken, buffer)
    {
      ghost var rule := FramerRule();
      FramerLawful();
      taken := [];
      while true
        invariant received == old(received) && log == old(log) + SeenAll(taken)
        invariant Replay(log) == Output(delivered, lastMessage)
        invariant Steps(rule, before, taken, buffer)
        decreases |buffer|
      {
        var r := Find(buffer);
        if r < 0 {
          break;
        }
        ghost var item := if r == 0 then Crlf else Segment(buffer[..r]);
        StepsOneMore(rule, before, taken, buffer, item);
        TakeAt(r, item);
        SeenMore(old(log), taken, item);
        taken := taken + [item];
      }
      StuckIsNoCrlf(buffer);
    }
  }

  function SeenAll(items: seq<Item>): (log: seq<Event>)
    ensures |log| == |items|
  {
    seq(|items|, i requires 0 <= i < |items| => Seen(items[i]))
  }

  lemma SeenMore(log: seq<Event>, items: seq<Item>, item: Item)
    ensures log + SeenAll(items) + [Seen(item)] == log + SeenAll(items + [item])
  {
    assert SeenAll(items + [item]) == SeenAll(items) + [Seen(item)];
  }

  ghost predicate OnlySeen(log: seq<Event>) {
    forall k | 0 <= k < |log| :: log[k].Seen?
  }

  lemma LogItem(log: seq<Event>, item: Item)
    ensures ItemsOf(log + [Seen(item)]) == ItemsOf(log) + [item]
    ensures Replay(log + [Seen(item)]) == Next(Replay(log), Seen(item))
  {
    assert (log + [Seen(item)])[..|log|] == log;
  }

  lemma {:induction false} ItemsAfter(log: seq<Event>, items: seq<Item>)
    ensures ItemsOf(log + SeenAll(items)) == ItemsOf(log) + items
  {
    if items == [] {
      assert log + SeenAll(items) == log;
    } else {
      var front, last := items[..|items| - 1], items[|items| - 1];
      ItemsAfter(log, front);
      LogItem(log + SeenAll(front), last);
      assert log + SeenAll(items) == log + SeenAll(front) + [Seen(last)];
      assert items == front + [last];
    }
  }

  // ---------- what is delivered ----------

  /** The texts among the items, in order. */
  function Texts(items: seq<Item>): seq<seq<Byte>> {
    if items == [] then []
    else (if items[0].Segment? then [items[0].bytes] else []) + Texts(items[1..])
  }

  /** `xs` without its first element equal to x. */
  function RemoveFirst<T(==)>(xs: seq<T>, x: T): seq<T> {
    if xs == [] then []
    else if xs[0] == x then xs[1..]
    else [xs[0]] + RemoveFirst(xs[1..], x)
  }

  lemma {:induction false} RemoveFirstAppend<T>(xs: seq<T>, y: T, x: T)
    ensures RemoveFirst(xs + [y], x) == if x in xs then RemoveFirst(xs, x) + [y] else if x == y then xs else xs + [y]
  {
    if xs == [] {
      assert xs + [y] == [y];
    } else {
      assert (xs + [y])[1..] == xs[1..] + [y];
      RemoveFirstAppend(xs[1..], y, x);
      assert xs == [xs[0]] + xs[1..];
    }
  }

  lemma {:induction false} TextsAppend(items: seq<Item>, item: Item)
    ensures Texts(items + [item]) == Texts(items) + if item.Segment? then [item.bytes] else []
  {
    if items == [] {
      assert items + [item] == [item] && [item][1..] == [];
    } else {
      TextsAppend(items[1..], item);
      assert (items + [item])[0] == items[0] && (items + [item])[1..] == items[1..] + [item];
    }
  }

  /** The output after a run of texts with nothing sent in between. */
  function AfterTexts(before: Output, texts: seq<seq<Byte>>): Output {
    Output(before.delivered + RemoveFirst(texts, before.echo), if before.echo in texts then [] else before.echo)
  }

  lemma AfterOneMoreText(before: Output, texts: seq<seq<Byte>>, text: seq<Byte>)
    requires text != []
    ensures AfterTexts(before, texts + [text]) ==
            var out := AfterTexts(before, texts);
            if out.echo == text then out.(echo := []) else out.(delivered := out.delivered + [text])
  {
    RemoveFirstAppend(texts, text, before.echo);
    if before.echo !in texts {
      RemoveFirstNone(texts, before.echo);
    }
  }

  /** While nothing is sent, the texts are delivered in order except at most one: the first that equals
      the pending echo, which is thereby used up. */
  lemma {:induction false} EchoSuppressedOnce(log: seq<Event>, items: seq<Item>)
    requires forall t | t in Texts(items) :: t != []
    ensures Replay(log + SeenAll(items)) == AfterTexts(Replay(log), Texts(items))
  {
    if items == [] {
      assert log + SeenAll(items) == log;
    } else {
      var front, last := items[..|items| - 1], items[|items| - 1];
      assert items == front + [last];
      TextsAppend(front, last);
      assert forall t | t in Texts(front) :: t in Texts(items);
      EchoSuppressedOnce(log, front);
      assert log + SeenAll(items) == log + SeenAll(front) + [Seen(last)];
      LogItem(log + SeenAll(front), last);
      if last.Segment? {
        assert last.bytes in Texts(items);
        AfterOneMoreText(Replay(log), Texts(front), last.bytes);
      } else {
        assert Texts(front) + [] == Texts(front);
      }
    }
  }

  lemma {:induction false} RemoveFirstNone<T>(xs: seq<T>, x: T)
    requires x !in xs
    ensures RemoveFirst(xs, x) == xs
  {
    if xs != [] {
      RemoveFirstNone(xs[1..], x);
    }
  }

  // ---------- the texts are the CRLF-separated segments of the stream ----------

  datatype Parts = Parts(segments: seq<seq<Byte>>, rest: seq<Byte>)

  function FirstCrlf(s: seq<Byte>): (r: int)
    ensures -1 <= r < |s|
    ensures r >= 0 ==> CrlfAt(s, r) && forall k: nat | k < r :: !CrlfAt(s, k)
    ensures r < 0 ==> forall k: nat :: !CrlfAt(s, k)
  {
    if s == [] then -1
    else if CrlfAt(s, 0) then 0
    else
      var r := FirstCrlf(s[1..]);
      assert forall k: nat | k > 0 :: CrlfAt(s, k) == CrlfAt(s[1..], k - 1);
      if r < 0 then -1 else r + 1
  }

  /** The stream cut at every CRLF: the terminated segments, and what follows the last CRLF. */
  function Split(s: seq<Byte>): Parts {
    var r := FirstCrlf(s);
    if r < 0 then Parts([], s)
    else
      var others := Split(s[r + 2..]);
      Parts([s[..r]] + others.segments, others.rest)
  }

  function NonEmpty(segments: seq<seq<Byte>>): seq<seq<Byte>> {
    if segments == [] then []
    else (if segments[0] == [] then [] else [segments[0]]) + NonEmpty(segments[1..])
  }

  /** The texts are the non-empty segments of the stream. */
  ghost predicate Segmented(stream: seq<Byte>, items: seq<Item>, rest: seq<Byte>) {
    && Texts(items) == NonEmpty(Split(stream).segments) && rest == Split(stream).rest
    && forall t | t in Texts(items) :: t != []
  }

  lemma SegmentedByCrlf(stream: seq<Byte>, items: seq<Item>, rest: seq<Byte>)
    requires FirstCrlf(stream) == 0 && items != [] && items[0] == Crlf
    requires Segmented(stream[2..], items[1..], rest)
    ensures Segmented(stream, items, rest)
  {
    SplitFirst(stream);
  }

  lemma SegmentedByText(stream: seq<Byte>, items: seq<Item>, rest: seq<Byte>)
    requires FirstCrlf(stream) > 0 && |items| >= 2 && items[1] == Crlf
    requires items[0] == Segment(stream[..FirstCrlf(stream)])
    requires Segmented(stream[FirstCrlf(stream) + 2..], items[2..], rest)
    ensures Segmented(stream, items, rest)
  {
    SplitFirst(stream);
    assert items[1..][1..] == items[2..];
    assert Texts(items[1..]) == [] + Texts(items[2..]);
  }

  /** The texts are exactly the non-empty segments, and the leftover is what follows the last CRLF. */
  lemma {:induction false} TextsAreSegments(stream: seq<Byte>, items: seq<Item>, rest: seq<Byte>)
    requires IsParse(FramerRule(), stream, items, rest)
    ensures Texts(items) == NonEmpty(Split(stream).segments) && rest == Split(stream).rest
    ensures forall t | t in Texts(items) :: t != []
    decreases |items|
  {
    var r := FirstCrlf(stream);
    if items == [] {
      if r >= 0 {
        assert FramerRule().off(stream, if r == 0 then Crlf else Segment(stream[..r]));
      }
    } else {
      FirstItem(stream, items[0]);
      if r == 0 {
        assert Steps(FramerRule(), stream[2..], items[1..], rest);
        TextsAreSegments(stream[2..], items[1..], rest);
        SegmentedByCrlf(stream, items, rest);
      } else {
        CrlfAfterText(stream, items, rest);
        TextsAreSegments(stream[r + 2..], items[2..], rest);
        SegmentedByText(stream, items, rest);
      }
    }
  }

  lemma SplitFirst(stream: seq<Byte>)
    requires FirstCrlf(stream) >= 0
    ensures var r := FirstCrlf(stream); var segments := Split(stream).segments;
      && NonEmpty(segments) == (if r == 0 then [] else [stream[..r]]) + NonEmpty(Split(stream[r + 2..]).segments)
      && Split(stream).rest == Split(stream[r + 2..]).rest
  {
    var r := FirstCrlf(stream);
    assert Split(stream).segments[1..] == Split(stream[r + 2..]).segments;
  }

  lemma CrlfAfterText(stream: seq<Byte>, items: seq<Item>, rest: seq<Byte>)
    requires IsParse(FramerRule(), stream, items, rest) && items != [] && FirstCrlf(stream) > 0
    ensures |items| >= 2 && items[1] == Crlf
    ensures IsParse(FramerRule(), stream[FirstCrlf(stream) + 2..], items[2..], rest)
  {
    var r := FirstCrlf(stream);
    FirstItem(stream, items[0]);
    var afterText, tail := stream[r..], items[1..];
    assert Steps(FramerRule(), afterText, tail, rest);
    assert CrlfAt(afterText, 0);
    assert tail != [] by {
      assert FramerRule().off(afterText, Crlf);
    }
    assert Takes(afterText, tail[0]);
    FirstItem(afterText, tail[0]);
    assert tail[1..] == items[2..] && afterText[2..] == stream[r + 2..];
  }

  lemma FirstItem(stream: seq<Byte>, item: Item)
    requires Takes(stream, item)
    ensures var r := FirstCrlf(stream); r >= 0 && item == if r == 0 then Crlf else Segment(stream[..r])
  {
    var r := FirstCrlf(stream);
    if item.Segment? {
      assert item.bytes == stream[..|item.bytes|];
    }
  }

  /** The leftover holds no CRLF, and a CR waiting for its LF stays in it. */
  lemma {:induction false} RestHasNoCrlf(s: seq<Byte>, k: nat)
    ensures !CrlfAt(Split(s).rest, k)
    decreases |s|
  {
    var r := FirstCrlf(s);
    if r >= 0 {
      RestHasNoCrlf(s[r + 2..], k);
    }
  }

  /** After any chunks with nothing sent in between: exactly the non-empty CRLF-separated segments of
      the new bytes (with the old leftover in front) are delivered, minus at most the first one equal
      to the pending echo. */
  lemma DeliveryOfStream(log: seq<Event>, stream: seq<Byte>, items: seq<Item>, rest: seq<Byte>)
    requires IsParse(FramerRule(), stream, items, rest)
    ensures Replay(log + SeenAll(items)).delivered ==
            Replay(log).delivered + RemoveFirst(NonEmpty(Split(stream).segments), Replay(log).echo)
    ensures var texts, echo := NonEmpty(Split(stream).segments), Replay(log).echo;
      Replay(log + SeenAll(items)).echo == if echo in texts then [] else echo
    ensures rest == Split(stream).rest
  {
    TextsAreSegments(stream, items, rest);
    EchoSuppressedOnce(log, items);
  }
}
