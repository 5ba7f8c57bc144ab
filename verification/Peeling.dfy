/** Framers in general: items come off the front of a buffer one after another, by a rule that looks
    only at the buffer. */
module Peeling {

  /** `off(buffer, item)`: this item has to come off the front of this buffer next. `raw` is the part
      of the buffer an item takes with it. */
  datatype Rule<!T, !I> = Rule(off: (seq<T>, I) -> bool, raw: I -> seq<T>)

  ghost predicate RuleAt<T(!new), I(!new)>(rule: Rule<T, I>, buffer: seq<T>, item: I, other: I, more: seq<T>) {
    rule.off(buffer, item) ==>
      && 1 <= |rule.raw(item)| <= |buffer| && rule.raw(item) == buffer[..|rule.raw(item)|]
      && (rule.off(buffer, other) ==> other == item)
      && rule.off(buffer + more, item)
  }

  /** An item is a non-empty prefix of the buffer, there is at most one, and more input does not
      change it. */
  ghost predicate Lawful<T(!new), I(!new)>(rule: Rule<T, I>) {
    forall buffer, item, other, more :: RuleAt(rule, buffer, item, other, more)
  }

  ghost predicate Stuck<T(!new), I(!new)>(rule: Rule<T, I>, buffer: seq<T>) {
    forall item :: !rule.off(buffer, item)
  }

  /** The items come off the stream one after another, leaving `rest`. */
  ghost predicate Steps<T(!new), I(!new)>(rule: Rule<T, I>, stream: seq<T>, items: seq<I>, rest: seq<T>)
    decreases |items|
  {
    if items == [] then rest == stream
    else
      && rule.off(stream, items[0]) && |rule.raw(items[0])| <= |stream|
      && Steps(rule, stream[|rule.raw(items[0])|..], items[1..], rest)
  }

  /** `items` then `rest` is the parse of the stream. */
  ghost predicate IsParse<T(!new), I(!new)>(rule: Rule<T, I>, stream: seq<T>, items: seq<I>, rest: seq<T>) {
    Steps(rule, stream, items, rest) && Stuck(rule, rest)
  }

  function Concat<T(!new), I(!new)>(rule: Rule<T, I>, items: seq<I>): seq<T> {
    if items == [] then [] else rule.raw(items[0]) + Concat(rule, items[1..])
  }

  /** A stream has at most one parse. */
  lemma {:induction false} ParseUnique<T(!new), I(!new)>(
    rule: Rule<T, I>, stream: seq<T>, items: seq<I>, rest: seq<T>, items': seq<I>, rest': seq<T>)
    requires Lawful(rule) && IsParse(rule, stream, items, rest) && IsParse(rule, stream, items', rest')
    ensures items == items' && rest == rest'
    decreases |items|
  {
    if items != [] && items' != [] {
      var i, i' := items[0], items'[0];
      assert RuleAt(rule, stream, i, i', []);
      ParseUnique(rule, stream[|rule.raw(i)|..], items[1..], rest, items'[1..], rest');
      assert items == [i] + items[1..] && items' == [i'] + items'[1..];
    }
  }

  /** Nothing is lost, invented or reordered. */
  lemma {:induction false} Conservation<T(!new), I(!new)>(rule: Rule<T, I>, stream: seq<T>, items: seq<I>, rest: seq<T>)
    requires Lawful(rule) && Steps(rule, stream, items, rest)
    ensures Concat(rule, items) + rest == stream
    decreases |items|
  {
    if items != [] {
      var raw := rule.raw(items[0]);
      assert RuleAt(rule, stream, items[0], items[0], []);
      Conservation(rule, stream[|raw|..], items[1..], rest);
      assert raw + Concat(rule, items[1..]) + rest == raw + (Concat(rule, items[1..]) + rest);
      assert stream == raw + stream[|raw|..];
    }
  }

  /** Steps continue when more input arrives. */
  lemma {:induction false} StepsAppend<T(!new), I(!new)>(
    rule: Rule<T, I>, stream: seq<T>, xs: seq<I>, mid: seq<T>, more: seq<T>, ys: seq<I>, rest: seq<T>)
    requires Lawful(rule) && Steps(rule, stream, xs, mid) && Steps(rule, mid + more, ys, rest)
    ensures Steps(rule, stream + more, xs + ys, rest)
    decreases |xs|
  {
    if xs == [] {
      assert xs + ys == ys;
    } else {
      var x, tail := xs[0], xs[1..];
      assert RuleAt(rule, stream, x, x, more);
      var n := |rule.raw(x)|;
      StepsAppend(rule, stream[n..], tail, mid, more, ys, rest);
      assert (stream + more)[n..] == stream[n..] + more;
      assert (xs + ys)[0] == x && (xs + ys)[1..] == tail + ys;
    }
  }

  lemma StepsOneMore<T(!new), I(!new)>(rule: Rule<T, I>, stream: seq<T>, xs: seq<I>, mid: seq<T>, item: I)
    requires Lawful(rule) && Steps(rule, stream, xs, mid) && rule.off(mid, item)
    ensures |rule.raw(item)| <= |mid|
    ensures Steps(rule, stream, xs + [item], mid[|rule.raw(item)|..])
  {
    assert RuleAt(rule, mid, item, item, []);
    assert mid + [] == mid && stream + [] == stream && [item][1..] == [];
    StepsAppend(rule, stream, xs, mid, [], [item], mid[|rule.raw(item)|..]);
  }

  /** Parsing the leftover together with the next chunk continues the parse of the whole stream. */
  lemma ParseExtends<T(!new), I(!new)>(
    rule: Rule<T, I>, stream: seq<T>, items: seq<I>, rest: seq<T>, more: seq<T>, items': seq<I>, rest': seq<T>)
    requires Lawful(rule) && IsParse(rule, stream, items, rest) && IsParse(rule, rest + more, items', rest')
    ensures IsParse(rule, stream + more, items + items', rest')
  {
    StepsAppend(rule, stream, items, rest, more, items', rest');
  }
}
