/** `_eeprom_batch_reader` (paradox/hardware/panel.py): fields at listed addresses are read in
    batches of neighbours. */
module Eeprom {
  import opened Wrappers

  datatype IndexAddress = IndexAddress(idx: int, address: int)

  datatype Request = Request(address: int, length: nat)

  datatype Field = Field(idx: int, data: seq<Byte>)

  datatype Ending = Finished | WrongMaximum | ReadFailed

  /** `n` bytes of the panel's memory from `address` on. */
  function Memory(mem: int -> Byte, address: int, n: nat): (r: seq<Byte>)
    ensures |r| == n && forall i | 0 <= i < n :: r[i] == mem(address + i)
  {
    seq(n, i requires 0 <= i < n => mem(address + i))
  }

  /** A panel that answers with what its memory holds, whenever it answers. */
  ghost predicate Honest(panel: (int, nat) -> Option<seq<Byte>>, mem: int -> Byte) {
    forall a, n :: AnswerIs(panel, mem, a, n)
  }

  ghost predicate AnswerIs(panel: (int, nat) -> Option<seq<Byte>>, mem: int -> Byte, a: int, n: nat) {
    panel(a, n).Some? ==> panel(a, n).value == Memory(mem, a, n)
  }

  /** Reading every field by itself. */
  function OneByOne(addresses: seq<IndexAddress>, len: nat, mem: int -> Byte): (r: seq<Field>)
    ensures |r| == |addresses|
  {
    seq(|addresses|, i requires 0 <= i < |addresses| =>
      Field(addresses[i].idx, Memory(mem, addresses[i].address, len)))
  }

  /** The addresses follow each other at the distance of one field. */
  ghost predicate Contiguous(batch: seq<IndexAddress>, len: nat) {
    forall i | 0 <= i < |batch| :: batch[i].address == batch[0].address + i * len
  }

  /** One request can fetch the batch. */
  ghost predicate Fits(batch: seq<IndexAddress>, len: nat, max: int) {
    batch != [] && Contiguous(batch, len) && |batch| * len <= max
  }

  /** `next` can join the batch. */
  predicate CanJoin(batch: seq<IndexAddress>, next: IndexAddress, len: nat, max: int)
    requires batch != []
  {
    batch[0].address + |batch| * len == next.address && (|batch| + 1) * len <= max
  }

  /** Any way of splitting the list, in order, into batches that one request each can fetch. */
  ghost predicate IsSplit(parts: seq<seq<IndexAddress>>, addresses: seq<IndexAddress>, len: nat, max: int) {
    && Join(parts) == addresses
    && forall b | 0 <= b < |parts| :: Fits(parts[b], len, max)
  }

  /** No batch could have taken one more field. */
  ghost predicate Greedy(parts: seq<seq<IndexAddress>>, len: nat, max: int) {
    && (forall b | 0 <= b < |parts| :: parts[b] != [])
    && forall b | 0 <= b < |parts| - 1 :: !CanJoin(parts[b], parts[b + 1][0], len, max)
  }

  // ---------- greedy is optimal ----------

  lemma {:induction false} JoinPrefix<T>(parts: seq<seq<T>>, k: nat)
    requires k <= |parts|
    ensures Join(parts[..k]) <= Join(parts)
    decreases |parts| - k
  {
    if k == |parts| {
      assert parts[..k] == parts;
    } else {
      JoinPrefix(parts, k + 1);
      assert parts[..k + 1] == parts[..k] + [parts[k]];
      JoinAppend(parts[..k], parts[k]);
    }
  }

  /** Batch k sits in the list right after the batches before it. */
  lemma BatchPlace<T>(parts: seq<seq<T>>, k: nat)
    requires k < |parts|
    ensures |Join(parts[..k + 1])| == |Join(parts[..k])| + |parts[k]| <= |Join(parts)|
    ensures forall i | 0 <= i < |parts[k]| :: Join(parts)[|Join(parts[..k])| + i] == parts[k][i]
  {
    JoinPrefix(parts, k + 1);
    assert parts[..k + 1] == parts[..k] + [parts[k]];
    JoinAppend(parts[..k], parts[k]);
    forall i | 0 <= i < |parts[k]|
      ensures Join(parts)[|Join(parts[..k])| + i] == parts[k][i]
    {
      assert Join(parts[..k + 1])[|Join(parts[..k])| + i] == parts[k][i];
    }
  }

  lemma BatchLength<T>(parts: seq<seq<T>>, k: nat)
    requires k < |parts|
    ensures |Join(parts[..k + 1])| == |Join(parts[..k])| + |parts[k]| <= |Join(parts)|
  {
    BatchPlace(parts, k);
  }

  lemma BatchAt<T>(parts: seq<seq<T>>, k: nat, i: nat, p: nat)
    requires k < |parts| && i < |parts[k]| && p == |Join(parts[..k])| + i
    ensures p < |Join(parts)| && Join(parts)[p] == parts[k][i]
  {
    BatchPlace(parts, k);
  }

  lemma Distribute(x: int, y: int, len: int)
    ensures (x + y) * len == x * len + y * len
  {}

  lemma Scale(x: int, y: int, len: nat)
    requires x <= y
    ensures x * len <= y * len
  {}

  /** Two fields of one fitting batch, counted from the first of them. */
  lemma WithinBatch(batch: seq<IndexAddress>, len: nat, max: int, p: nat, q: nat)
    requires Fits(batch, len, max) && p <= q < |batch|
    ensures batch[q].address == batch[p].address + (q - p) * len
    ensures (q - p + 1) * len <= max
  {
    Distribute(p, q - p, len);
    assert batch[p].address == batch[0].address + p * len;
    assert batch[q].address == batch[0].address + q * len;
    Scale(q - p + 1, |batch|, len);
  }

  lemma PrefixShorter<T>(parts: seq<seq<T>>, k: nat)
    requires k < |parts| && parts[k] != []
    ensures |Join(parts[..k])| < |Join(parts)|
  {
    BatchPlace(parts, k);
  }

  lemma NextExists<T>(parts: seq<seq<T>>, k: nat)
    requires k <= |parts| && |Join(parts[..k])| < |Join(parts)|
    ensures k < |parts|
  {
    assert parts[..|parts|] == parts;
  }

  /** If the first j batches of `greedy` cover as much as those of another split, but one more batch
      covers less, then that batch could have taken the next field. */
  lemma OvertakenCanJoin(
    greedy: seq<seq<IndexAddress>>, other: seq<seq<IndexAddress>>, addresses: seq<IndexAddress>,
    len: nat, max: int, j: nat)
    requires Join(greedy) == addresses && forall b | 0 <= b < |greedy| :: greedy[b] != []
    requires IsSplit(other, addresses, len, max) && j < |greedy| && j < |other|
    requires |Join(other[..j])| <= |Join(greedy[..j])|
    requires |Join(greedy[..j + 1])| < |Join(other[..j + 1])|
    ensures j + 1 < |greedy| && CanJoin(greedy[j], greedy[j + 1][0], len, max)
  {
    BatchLength(greedy, j);
    BatchLength(other, j);
    var g, g', o := |Join(greedy[..j])|, |Join(greedy[..j + 1])|, |Join(other[..j])|;
    NextExists(greedy, j + 1);
    BatchAt(greedy, j, 0, g);
    BatchAt(greedy, j + 1, 0, g');
    BatchAt(other, j, g - o, g);
    BatchAt(other, j, g' - o, g');
    WithinBatch(other[j], len, max, g - o, g' - o);
  }

  /** After the same number of batches the greedy split is never behind another. */
  lemma {:induction false} StaysAhead(
    greedy: seq<seq<IndexAddress>>, other: seq<seq<IndexAddress>>, addresses: seq<IndexAddress>,
    len: nat, max: int, k: nat)
    requires Join(greedy) == addresses && Greedy(greedy, len, max)
    requires IsSplit(other, addresses, len, max)
    requires k <= |greedy| && k <= |other|
    ensures |Join(other[..k])| <= |Join(greedy[..k])|
  {
    if k > 0 {
      StaysAhead(greedy, other, addresses, len, max, k - 1);
      if |Join(greedy[..k])| < |Join(other[..k])| {
        OvertakenCanJoin(greedy, other, addresses, len, max, k - 1);
      }
    }
  }

  /** No other split into fitting batches uses fewer requests. */
  lemma GreedyIsOptimal(greedy: seq<seq<IndexAddress>>, other: seq<seq<IndexAddress>>,
          addresses: seq<IndexAddress>, len: nat, max: int)
    requires Join(greedy) == addresses && Greedy(greedy, len, max)
    requires IsSplit(other, addresses, len, max)
    ensures |greedy| <= |other|
  {
    if |greedy| > |other| {
      var k := |other|;
      assert other[..k] == other;
      StaysAhead(greedy, other, addresses, len, max, k);
      PrefixShorter(greedy, k);
    }
  }

  // ---------- the reader ----------

  /** Requests that fetch the batches. */
  function RequestsOf(parts: seq<seq<IndexAddress>>, len: nat): (r: seq<Request>)
    requires forall b | 0 <= b < |parts| :: parts[b] != []
    ensures |r| == |parts|
  {
    seq(|parts|, b requires 0 <= b < |parts| => Request(parts[b][0].address, |parts[b]| * len))
  }

  /** The pending batch is contiguous and, unless it is a single field, within the limit. */
  ghost predicate Pending(batch: seq<IndexAddress>, len: nat, max: int) {
    && Contiguous(batch, len)
    && (|batch| > 1 ==> |batch| * len <= max)
  }

  lemma SlicesOfAnswer(batch: seq<IndexAddress>, len: nat, mem: int -> Byte, data: seq<Byte>, i: nat)
    requires Contiguous(batch, len) && i < |batch| && data == Memory(mem, batch[0].address, |batch| * len)
    ensures Slice(data, i * len, (i + 1) * len) == Memory(mem, batch[i].address, len)
  {
    Scale(i + 1, |batch|, len);
    Distribute(i, 1, len);
    assert batch[i].address == batch[0].address + i * len;
    var r := Slice(data, i * len, (i + 1) * len);
    forall k | 0 <= k < len
      ensures r[k] == mem(batch[i].address + k)
    {
      assert r[k] == data[i * len + k];
    }
  }

  lemma OneByOneAppend(xs: seq<IndexAddress>, ys: seq<IndexAddress>, len: nat, mem: int -> Byte)
    ensures OneByOne(xs + ys, len, mem) == OneByOne(xs, len, mem) + OneByOne(ys, len, mem)
  {}

  /** The inner loop: fetch one batch and yield its fields. */
  method FetchBatch(batch: seq<IndexAddress>, len: nat, panel: (int, nat) -> Option<seq<Byte>>, ghost mem: int -> Byte)
    returns (fields: Option<seq<Field>>)
    requires batch != [] && Contiguous(batch, len) && Honest(panel, mem)
    ensures fields.Some? <==> panel(batch[0].address, |batch| * len).Some?
    ensures fields.Some? ==> fields.value == OneByOne(batch, len, mem)
  {
    var reply := panel(batch[0].address, |batch| * len);
    assert AnswerIs(panel, mem, batch[0].address, |batch| * len);
    if reply.None? {
      return None;
    }
    var out := [];
    for i := 0 to |batch|
      invariant out == OneByOne(batch, len, mem)[..i]
    {
      SlicesOfAnswer(batch, len, mem, reply.value, i);
      out := out + [Field(batch[i].idx, Slice(reply.value, i * len, (i + 1) * len))];
    }
    fields := Some(out);
  }

  /** Every batch could be sent, and none could have taken the first field of the next. */
  ghost predicate Cut(parts: seq<seq<IndexAddress>>, len: nat, max: int) {
    && Greedy(parts, len, max)
    && forall b | 0 <= b < |parts| :: Pending(parts[b], len, max)
  }

  /** `batch` may follow the batches `parts`. */
  ghost predicate Follows(parts: seq<seq<IndexAddress>>, batch: seq<IndexAddress>, len: nat, max: int) {
    && Pending(batch, len, max)
    && (parts != [] && batch != [] ==> parts[|parts| - 1] != [] && !CanJoin(parts[|parts| - 1], batch[0], len, max))
  }

  /** What the fetched batches have given and cost. */
  ghost predicate Gathered(
    parts: seq<seq<IndexAddress>>, len: nat, mem: int -> Byte, fields: seq<Field>, requests: seq<Request>) {
    && (forall b | 0 <= b < |parts| :: parts[b] != [])
    && fields == OneByOne(Join(parts), len, mem)
    && requests == RequestsOf(parts, len)
  }

  /** What the reader has done when `parts` have been fetched and `batch` is pending at position pos. */
  ghost predicate Reading(
    addresses: seq<IndexAddress>, len: nat, max: int, mem: int -> Byte,
    parts: seq<seq<IndexAddress>>, batch: seq<IndexAddress>, pos: nat, fields: seq<Field>, requests: seq<Request>) {
    && pos <= |addresses| && Join(parts) + batch == addresses[..pos]
    && Cut(parts, len, max) && Follows(parts, batch, len, max)
    && Gathered(parts, len, mem, fields, requests)
  }

  /** The finished part: the batches fetched so far, greedily cut, gave each field its own bytes. */
  ghost predicate Read(
    parts: seq<seq<IndexAddress>>, len: nat, max: int, mem: int -> Byte, fields: seq<Field>, requests: seq<Request>) {
    Cut(parts, len, max) && Gathered(parts, len, mem, fields, requests)
  }

  /** The panel did not answer the request for the batch that follows `parts`. */
  ghost predicate Refused(
    addresses: seq<IndexAddress>, len: nat, max: int, panel: (int, nat) -> Option<seq<Byte>>,
    parts: seq<seq<IndexAddress>>, batch: seq<IndexAddress>) {
    && batch != [] && Join(parts) + batch <= addresses && Follows(parts, batch, len, max)
    && panel(batch[0].address, |batch| * len).None?
  }

  /** The panel has answered all requests. */
  predicate Answered(panel: (int, nat) -> Option<seq<Byte>>, requests: seq<Request>) {
    forall r | 0 <= r < |requests| :: panel(requests[r].address, requests[r].length).Some?
  }

  lemma CutStep(parts: seq<seq<IndexAddress>>, batch: seq<IndexAddress>, len: nat, max: int)
    requires Cut(parts, len, max) && Follows(parts, batch, len, max) && batch != []
    ensures Cut(parts + [batch], len, max)
  {
    var parts' := parts + [batch];
    forall b | 0 <= b < |parts'| - 1
      ensures !CanJoin(parts'[b], parts'[b + 1][0], len, max)
    {
      if b < |parts| - 1 { assert !CanJoin(parts[b], parts[b + 1][0], len, max); }
    }
  }

  lemma GatheredStep(
    parts: seq<seq<IndexAddress>>, batch: seq<IndexAddress>, len: nat, mem: int -> Byte,
    fields: seq<Field>, requests: seq<Request>)
    requires Gathered(parts, len, mem, fields, requests) && batch != []
    ensures Gathered(parts + [batch], len, mem, fields + OneByOne(batch, len, mem),
                     requests + [Request(batch[0].address, |batch| * len)])
  {
    JoinAppend(parts, batch);
    OneByOneAppend(Join(parts), batch, len, mem);
  }

  /** Sending the pending batch. */
  lemma SendStep(
    addresses: seq<IndexAddress>, len: nat, max: int, mem: int -> Byte,
    parts: seq<seq<IndexAddress>>, batch: seq<IndexAddress>, pos: nat, fields: seq<Field>, requests: seq<Request>)
    requires Reading(addresses, len, max, mem, parts, batch, pos, fields, requests) && batch != []
    ensures Reading(addresses, len, max, mem, parts + [batch], [], pos,
                    fields + OneByOne(batch, len, mem), requests + [Request(batch[0].address, |batch| * len)])
  {
    JoinAppend(parts, batch);
    CutStep(parts, batch, len, max);
    GatheredStep(parts, batch, len, mem, fields, requests);
    assert Join(parts + [batch]) + [] == addresses[..pos];
  }

  /** The next field joins the pending batch. */
  lemma JoinStep(
    addresses: seq<IndexAddress>, len: nat, max: int, mem: int -> Byte,
    parts: seq<seq<IndexAddress>>, batch: seq<IndexAddress>, pos: nat, fields: seq<Field>, requests: seq<Request>)
    requires Reading(addresses, len, max, mem, parts, batch, pos, fields, requests) && pos < |addresses|
    requires batch != [] ==> CanJoin(batch, addresses[pos], len, max)
    requires batch == [] && parts != [] ==> !CanJoin(parts[|parts| - 1], addresses[pos], len, max)
    ensures Reading(addresses, len, max, mem, parts, batch + [addresses[pos]], pos + 1, fields, requests)
  {
    assert Join(parts) + (batch + [addresses[pos]]) == (Join(parts) + batch) + [addresses[pos]];
    assert addresses[..pos] + [addresses[pos]] == addresses[..pos + 1];
  }

  /** Stopping with a batch unsent. */
  lemma EndStep(
    addresses: seq<IndexAddress>, len: nat, max: int, mem: int -> Byte,
    parts: seq<seq<IndexAddress>>, batch: seq<IndexAddress>, pos: nat, fields: seq<Field>, requests: seq<Request>)
    requires Reading(addresses, len, max, mem, parts, batch, pos, fields, requests)
    ensures Join(parts) + batch <= addresses && Join(parts) <= addresses
    ensures Read(parts, len, max, mem, fields, requests)
    ensures batch == [] && pos == |addresses| ==> Join(parts) == addresses
    ensures len > 0 && |batch| * len == 0 ==> batch == []
  {
    assert Join(parts) + batch == addresses[..pos];
    assert Join(parts) == addresses[..|Join(parts)|];
    if len > 0 && batch != [] {
      Scale(1, |batch|, len);
    }
  }

  /** The `try` block of the loop: the next address joins the batch, or the batch is to be sent and
      the address starts a new one; at the end of the list whatever is left is to be sent. */
  method TakeNext(
    addresses: seq<IndexAddress>, len: nat, max: int, batch: seq<IndexAddress>, pos: nat,
    ghost mem: int -> Byte, ghost parts: seq<seq<IndexAddress>>, ghost fields: seq<Field>, ghost requests: seq<Request>)
    returns (send: Option<seq<IndexAddress>>, batch': seq<IndexAddress>, pos': nat)
    requires Reading(addresses, len, max, mem, parts, batch, pos, fields, requests)
    requires batch == [] ==> pos == |addresses| || (pos == 0 && parts == [])
    ensures pos' == if pos < |addresses| then pos + 1 else pos
    ensures send.None? ==> pos < |addresses| && batch' != []
                           && Reading(addresses, len, max, mem, parts, batch', pos', fields, requests)
    ensures send.Some? ==> send.value == batch && batch' == addresses[pos..pos']
    ensures send.Some? && pos < |addresses| ==> batch != [] && !CanJoin(batch, addresses[pos], len, max)
  {
    send, batch', pos' := None, batch, pos;
    if pos < |addresses| {
      var ia := addresses[pos];
      if batch != [] && (batch[0].address + |batch| * len != ia.address || (|batch| + 1) * len > max) {
        send := Some(batch);
        batch' := [];
      }
      batch' := batch' + [ia];
      pos' := pos + 1;
      if send.None? {
        JoinStep(addresses, len, max, mem, parts, batch, pos, fields, requests);
      }
    } else {
      send := Some(batch);
      batch' := [];
    }
  }

  /** The batch has been fetched; `rest` is empty or the field that could not join it. */
  lemma FetchedStep(
    addresses: seq<IndexAddress>, len: nat, max: int, mem: int -> Byte,
    parts: seq<seq<IndexAddress>>, batch: seq<IndexAddress>, pos: nat, fields: seq<Field>,
    requests: seq<Request>, pos': nat)
    requires Reading(addresses, len, max, mem, parts, batch, pos, fields, requests) && batch != []
    requires pos' == if pos < |addresses| then pos + 1 else pos
    requires pos < |addresses| ==> !CanJoin(batch, addresses[pos], len, max)
    ensures Reading(addresses, len, max, mem, parts + [batch], addresses[pos..pos'], pos',
                    fields + OneByOne(batch, len, mem), requests + [Request(batch[0].address, |batch| * len)])
  {
    SendStep(addresses, len, max, mem, parts, batch, pos, fields, requests);
    if pos < |addresses| {
      JoinStep(addresses, len, max, mem, parts + [batch], [], pos,
               fields + OneByOne(batch, len, mem), requests + [Request(batch[0].address, |batch| * len)]);
      assert addresses[pos..pos'] == [] + [addresses[pos]];
    } else {
      assert addresses[pos..pos'] == [];
    }
  }

  /** How the reader may end. */
  ghost predicate Ended(
    addresses: seq<IndexAddress>, len: nat, max: int, panel: (int, nat) -> Option<seq<Byte>>, mem: int -> Byte,
    parts: seq<seq<IndexAddress>>, fields: seq<Field>, requests: seq<Request>, ending: Ending) {
    && Join(parts) <= addresses && Read(parts, len, max, mem, fields, requests) && Answered(panel, requests)
    && (len == 0 ==> parts == [])
    && (len > 0 && ending.Finished? ==> Join(parts) == addresses)
    && (ending.ReadFailed? ==> exists batch :: Refused(addresses, len, max, panel, parts, batch))
  }

  /** The `if send_batch is not None` block: fetch the batch, or stop at an empty one. */
  method SendBatch(
    addresses: seq<IndexAddress>, len: nat, max: int, panel: (int, nat) -> Option<seq<Byte>>,
    send: seq<IndexAddress>, fields: seq<Field>, requests: seq<Request>,
    ghost mem: int -> Byte, ghost parts: seq<seq<IndexAddress>>, ghost pos: nat)
    returns (stop: Option<Ending>, fields': seq<Field>, requests': seq<Request>)
    requires Honest(panel, mem) && Reading(addresses, len, max, mem, parts, send, pos, fields, requests)
    requires (len == 0 ==> parts == []) && Answered(panel, requests)
    requires send == [] ==> pos == |addresses|
    ensures stop.Some? ==> !stop.value.WrongMaximum? && fields' == fields && requests' == requests
                           && Ended(addresses, len, max, panel, mem, parts, fields, requests, stop.value)
    ensures stop.None? ==> send != [] && len > 0 && fields' == fields + OneByOne(send, len, mem)
                           && requests' == requests + [Request(send[0].address, |send| * len)]
                           && Answered(panel, requests')
  {
    stop, fields', requests' := None, fields, requests;
    EndStep(addresses, len, max, mem, parts, send, pos, fields, requests);
    if |send| * len == 0 {
      stop := Some(Finished);
      return;
    }
    var got := FetchBatch(send, len, panel, mem);
    if got.None? {
      assert Refused(addresses, len, max, panel, parts, send);
      stop := Some(ReadFailed);
      return;
    }
    fields' := fields + got.value;
    requests' := requests + [Request(send[0].address, |send| * len)];
  }

  /** The fields so far are those of the first addresses, each with its own bytes. */
  lemma FieldsInOrder(
    addresses: seq<IndexAddress>, len: nat, max: int, panel: (int, nat) -> Option<seq<Byte>>, mem: int -> Byte,
    parts: seq<seq<IndexAddress>>, fields: seq<Field>, requests: seq<Request>, ending: Ending)
    requires Ended(addresses, len, max, panel, mem, parts, fields, requests, ending)
    ensures |fields| <= |addresses|
    ensures forall i | 0 <= i < |fields| ::
              fields[i] == Field(addresses[i].idx, Memory(mem, addresses[i].address, len))
    ensures len > 0 && ending.Finished? ==> |fields| == |addresses|
  {}

  /** `_eeprom_batch_reader` drained to its end, over a panel that may fail to answer: each address,
      in order and once, is yielded with the bytes the panel holds there. */
  method BatchReader(
    addresses: seq<IndexAddress>, len: nat, max: int, panel: (int, nat) -> Option<seq<Byte>>, ghost mem: int -> Byte)
    returns (fields: seq<Field>, requests: seq<Request>, ending: Ending, ghost parts: seq<seq<IndexAddress>>)
    requires Honest(panel, mem)
    ensures ending.WrongMaximum? <==> max < 1
    ensures Ended(addresses, len, max, panel, mem, parts, fields, requests, ending) || ending.WrongMaximum?
    ensures ending.WrongMaximum? ==> fields == [] && requests == []
    ensures |fields| <= |addresses|
    ensures forall i | 0 <= i < |fields| ::
              fields[i] == Field(addresses[i].idx, Memory(mem, addresses[i].address, len))
    ensures len > 0 && ending.Finished? ==> |fields| == |addresses|
  {
    fields, requests, parts := [], [], [];
    if max < 1 {
      ending := WrongMaximum;
      return;
    }
    var batch: seq<IndexAddress> := [];
    var pos := 0;
    while true
      invariant Reading(addresses, len, max, mem, parts, batch, pos, fields, requests)
      invariant batch == [] ==> pos == |addresses| || (pos == 0 && parts == [])
      invariant (len == 0 ==> parts == []) && Answered(panel, requests)
      decreases |addresses| - pos, |batch|
    {
      ghost var pos0, fields0, requests0 := pos, fields, requests;
      var send;
      send, batch, pos := TakeNext(addresses, len, max, batch, pos, mem, parts, fields, requests);
      if send.Some? {
        var stop;
        stop, fields, requests := SendBatch(addresses, len, max, panel, send.value, fields, requests, mem, parts, pos0);
        if stop.Some? {
          ending := stop.value;
          FieldsInOrder(addresses, len, max, panel, mem, parts, fields, requests, ending);
          return;
        }
        FetchedStep(addresses, len, max, mem, parts, send.value, pos0, fields0, requests0, pos);
        parts := parts + [send.value];
      }
    }
  }

  // ---------- what the caller gets ----------

  /** A field length within the limit: every request is within it too, and the batches are the
      fewest that can fetch the list. */
  lemma ReadIsWithinLimitAndOptimal(
    parts: seq<seq<IndexAddress>>, len: nat, max: int, mem: int -> Byte, fields: seq<Field>, requests: seq<Request>)
    requires Read(parts, len, max, mem, fields, requests) && len <= max
    ensures forall r | 0 <= r < |requests| :: requests[r].length <= max
    ensures IsSplit(parts, Join(parts), len, max)
    ensures forall other | IsSplit(other, Join(parts), len, max) :: |requests| <= |other|
  {
    forall b | 0 <= b < |parts|
      ensures Fits(parts[b], len, max) && requests[b].length <= max
    {
      assert Pending(parts[b], len, max);
    }
    forall other | IsSplit(other, Join(parts), len, max)
      ensures |requests| <= |other|
    {
      GreedyIsOptimal(parts, other, Join(parts), len, max);
    }
  }

  /** With fields over the limit, every batch is a single field. */
  lemma FirstField(batch: seq<IndexAddress>, rest: seq<IndexAddress>, addresses: seq<IndexAddress>, len: nat, max: int)
    requires Pending(batch, len, max) && batch != [] && len > max && batch + rest <= addresses
    ensures |batch| == 1 && addresses != [] && batch[0] == addresses[0] && |batch| * len == len
  {
    Scale(1, |batch|, len);
  }

  /** All requests are within the limit exactly if a single field is, or none is answered: there is
      nothing to read, or the panel refuses the first field. */
  lemma WithinLimitExactly(
    addresses: seq<IndexAddress>, len: nat, max: int, panel: (int, nat) -> Option<seq<Byte>>, mem: int -> Byte,
    parts: seq<seq<IndexAddress>>, fields: seq<Field>, requests: seq<Request>, ending: Ending)
    requires 1 <= max && Ended(addresses, len, max, panel, mem, parts, fields, requests, ending)
    requires !ending.WrongMaximum?
    ensures (forall r | 0 <= r < |requests| :: requests[r].length <= max)
       <==> (len <= max || addresses == [] || panel(addresses[0].address, len).None?)
  {
    if len <= max {
      ReadIsWithinLimitAndOptimal(parts, len, max, mem, fields, requests);
    } else if parts != [] {
      FirstField(parts[0], Join(parts[1..]), addresses, len, max);
      assert requests[0] == Request(addresses[0].address, len);
    } else if ending.ReadFailed? {
      var batch :| Refused(addresses, len, max, panel, parts, batch);
      FirstField(batch, [], addresses, len, max);
    }
  }
}
