/** What the other modules share: optional values and bytes. */
module Wrappers {
  /** A value, or its absence: Python's None, or an exception in place of a result. */
  datatype Option<+T> = None | Some(value: T)

  type Byte = bv8

  /** The slice s[lo : hi] as Python cuts it: bounds beyond the end are the end. */
  function Slice<T>(s: seq<T>, lo: nat, hi: nat): seq<T> {
    if lo >= |s| || hi <= lo then [] else s[lo..if hi <= |s| then hi else |s|]
  }

  /** The parts, one after the other. */
  function Join<T>(parts: seq<seq<T>>): seq<T> {
    if parts == [] then [] else parts[0] + Join(parts[1..])
  }

  lemma {:induction false} JoinAppend<T>(parts: seq<seq<T>>, last: seq<T>)
    ensures Join(parts + [last]) == Join(parts) + last
  {
    if parts == [] {
      assert [] + [last] == [last] && last + [] == last;
    } else {
      assert (parts + [last])[1..] == parts[1..] + [last];
      JoinAppend(parts[1..], last);
    }
  }
}
