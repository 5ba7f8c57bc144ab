/** `_on_status_update` of paradox/paradox.py on the store object: troubles first, then every element of
    the status table, then the states of the partitions. */
module StatusUpdates {
  import opened Wrappers
  import opened DeepMerge
  import opened Containers
  import opened ElementContainers
  import opened Storage
  import opened StorageRuns
  import opened MemoryStorages
  import opened Partitions

  const SYSTEM := "system"
  const TROUBLES := Text("troubles")
  const TROUBLE := Text("trouble")

  /** An element of the status table: a dictionary of properties; a list, on which the call asserts;
      or something that is skipped. */
  datatype Item = Item(key: Key, changes: Updates) | Listed(key: Key) | Skipped(key: Key)

  // ---------- what is called ----------

  /** A call that is proper in every state: it leaves "key" alone, and its own key is no text of digits. */
  predicate AlwaysDecent(call: Call) {
    (forall i | 0 <= i < |call.updates| :: call.updates[i].0 != KEY) && Transform(call.key) == call.key
  }

  lemma AlwaysIsDecent<E>(st: State<E>, call: Call)
    requires AlwaysDecent(call)
    ensures Decent(st, call)
  {}

  /** A call without changes does nothing. */
  function Effective(call: Call): seq<Call> {
    if call.updates == [] then [] else [call]
  }

  function TroubleCall(name: Key, on: bool): Call {
    Call(SYSTEM, TROUBLES, [(name, Value(Leaf(Flag(on))))])
  }

  predicate IsFlag(d: Data) {
    d.Leaf? && d.v.Flag?
  }

  /** Some trouble is on. */
  predicate AnyTrouble(troubles: seq<(Key, Data)>) {
    exists i | 0 <= i < |troubles| :: troubles[i].1 == Leaf(Flag(true))
  }

  /** The calls of the loop over the troubles: those with a state that is no boolean are skipped. */
  function FlagCalls(troubles: seq<(Key, Data)>): seq<Call> {
    if troubles == [] then []
    else
      var last := troubles[|troubles| - 1];
      FlagCalls(troubles[..|troubles| - 1]) + if IsFlag(last.1) then [TroubleCall(last.0, last.1.v.b)] else []
  }

  function TroubleCalls(troubles: seq<(Key, Data)>): seq<Call> {
    FlagCalls(troubles) + [TroubleCall(TROUBLE, AnyTrouble(troubles))]
  }

  /** The call for one element. */
  function ItemCalls(t: string, item: Item): seq<Call> {
    match item
    case Item(key, changes) => Effective(Call(t, key, changes))
    case _ => []
  }

  /** The calls for the elements of a type. */
  function TypeCalls(t: string, items: seq<Item>): seq<Call> {
    if items == [] then [] else TypeCalls(t, items[..|items| - 1]) + ItemCalls(t, items[|items| - 1])
  }

  // ---------- runs on the object ----------

  /** The store is where these calls lead from st0, each with the element it found or created. */
  ghost predicate HasRun(storage: MemoryStorage, st0: State<Element>, log0: seq<Change>, calls: seq<Call>,
          es: seq<Element>, push: bool)
    reads storage, storage.data.Values
  {
    match CoversAll(st0) && |es| == |calls|
    case true => Run(Outcome(st0, log0, true), calls, es, push) == Outcome(storage.Whole(), storage.published, true)
    case false => false
  }

  /** The log mirrors the store since then. */
  ghost predicate MirrorsSince(storage: MemoryStorage, initial: State<Element>, mark: nat)
    reads storage, storage.data.Values, storage.since.heap.Keys
  {
    match storage.Valid()
    case true => storage.since.initial == initial && storage.since.mark == mark
    case false => false
  }

  lemma {:induction false} RunAppend<E>(o: Outcome<E>, calls: seq<Call>, es: seq<E>, call: Call, e: E, push: bool)
    requires CoversAll(o.state) && |es| == |calls|
    ensures CoversAll(Run(o, calls, es, push).state)
    ensures Run(o, calls + [call], es + [e], push) == Then(Run(o, calls, es, push), call, push, e)
    decreases |calls|
  {
    if calls == [] {
      assert [] + [call] == [call] && [] + [e] == [e] && [call][1..] == [] && [e][1..] == [];
    } else {
      assert (calls + [call])[1..] == calls[1..] + [call] && (es + [e])[1..] == es[1..] + [e];
      RunAppend(Then(o, calls[0], push, es[0]), calls[1..], es[1..], call, e, push);
    }
  }

  lemma NextRun(st0: State<Element>, log0: seq<Change>, calls: seq<Call>, es: seq<Element>, push: bool,
          st: State<Element>, log: seq<Change>, call: Call, e: Element)
    requires CoversAll(st0) && |es| == |calls|
    requires Run(Outcome(st0, log0, true), calls, es, push) == Outcome(st, log, true)
    ensures CoversAll(st)
    ensures var o := UpdateObject(st, call, push, e);
      Run(Outcome(st0, log0, true), calls + [call], es + [e], push) == Outcome(o.state, log + o.log, o.ok)
  {
    RunAppend(Outcome(st0, log0, true), calls, es, call, e, push);
  }

  // ---------- partitions stay where their "key" finds them ----------

  /** The partitions can be looked up by their "key". */
  ghost predicate PartitionsLookable<E>(st: State<E>) {
    forall k, e | Has(st, PARTITION, k, e) :: e in st.heap && HasLookupKey(st.heap[e])
  }

  lemma LookableByKey(p: Props, q: Props)
    requires HasLookupKey(p) && Old(q, KEY) == Old(p, KEY)
    ensures HasLookupKey(q)
  {}

  lemma NewIsLookable<E>(st: State<E>, call: Call, push: bool, spare: E)
    requires CoversAll(st) && AlwaysDecent(call) && GetItem(ContainerOf(st, call.container), call.key).None?
    requires call.updates != []
    ensures spare in UpdateObject(st, call, push, spare).state.heap
    ensures HasLookupKey(UpdateObject(st, call, push, spare).state.heap[spare])
  {
    var p: Props := map[KEY := KeyData(call.key)];
    ApplyLeaves(call.container, p[KEY], p, call.updates, push, KEY);
    LookableByKey(p, Apply(call.container, p[KEY], p, call.updates, push).props);
  }

  lemma CallKeepsLookable<E>(st: State<E>, call: Call, push: bool, e: E)
    requires Good(st) && PartitionsLookable(st) && AlwaysDecent(call) && CanGet(st, call.container, call.key, e)
    ensures PartitionsLookable(UpdateObject(st, call, push, e).state)
  {
    AlwaysIsDecent(st, call);
    UpdateObjectGrows(st, call, push, e);
    CallAddsOne(st, call, push, e);
    var st2 := UpdateObject(st, call, push, e).state;
    forall k, x | Has(st2, PARTITION, k, x)
      ensures x in st2.heap && HasLookupKey(st2.heap[x])
    {
      UpdateObjectCovers(st, call, push, e);
      if Has(st, PARTITION, k, x) {
        LookableByKey(st.heap[x], st2.heap[x]);
      } else {
        assert x == e && x !in st.heap;
        if call.updates != [] && GetItem(ContainerOf(st, call.container), call.key).Some? {
          FoundUnchanged(st, call.container, call.key, e);
        } else if call.updates != [] {
          NewIsLookable(st, call, push, e);
        }
      }
    }
  }

  // ---------- the calls on the object ----------

  /** The log mirrors the store since then, and partitions can be looked up. */
  ghost predicate IsFit(storage: MemoryStorage, initial: State<Element>, mark: nat)
    reads storage, storage.data.Values, storage.since.heap.Keys
  {
    match MirrorsSince(storage, initial, mark)
    case true => PartitionsLookable(storage.Whole())
    case false => false
  }

  /** One call of `update_container_object`. */
  method UpdateFit(storage: MemoryStorage, call: Call, push: bool, ghost initial: State<Element>, ghost mark: nat)
    returns (ghost e: Option<Element>)
    requires IsFit(storage, initial, mark) && AlwaysDecent(call)
    modifies storage.Repr()
    ensures IsFit(storage, initial, mark) && (call.updates != [] <==> e.Some?)
    ensures e.None? ==> storage.Whole() == old(storage.Whole()) && storage.published == old(storage.published)
    ensures e.Some? ==> var o := CallOn(old(storage.Whole()), call, push, e.value);
      o.ok && storage.Whole() == o.state && storage.published == old(storage.published) + o.log
    ensures forall x | x in storage.Repr() :: x in old(storage.Repr()) || fresh(x)
  {
    ghost var st := storage.Whole();
    AlwaysIsDecent(st, call);
    GoodNow(storage);
    ghost var ok;
    ok, e := storage.UpdateContainerObject(call.container, call.key, call.updates, push);
    if e.Some? {
      CallKeepsLookable(st, call, push, e.value);
    }
  }

  lemma GoodNow(storage: MemoryStorage)
    requires storage.Valid()
    ensures Good(storage.Whole())
  {}

  /** Where a run of calls has started, and how its log is read. */
  datatype Past = Past(initial: State<Element>, mark: nat, st0: State<Element>, log0: seq<Change>, push: bool)

  /** These calls have been made; the log mirrors the store. */
  ghost predicate HasMade(storage: MemoryStorage, past: Past, calls: seq<Call>, es: seq<Element>)
    reads storage, storage.data.Values, storage.since.heap.Keys
  {
    match past
    case Past(initial, mark, st0, log0, push) =>
      IsFit(storage, initial, mark) && HasRun(storage, st0, log0, calls, es, push)
  }

  /** One more call of a run. */
  method UpdateOne(storage: MemoryStorage, call: Call, push: bool, ghost past: Past, ghost calls: seq<Call>,
          ghost es: seq<Element>)
    returns (ghost es2: seq<Element>)
    requires HasMade(storage, past, calls, es) && past.push == push && AlwaysDecent(call)
    modifies storage.Repr()
    ensures HasMade(storage, past, calls + Effective(call), es2)
    ensures forall x | x in storage.Repr() :: x in old(storage.Repr()) || fresh(x)
  {
    ghost var st, log := storage.Whole(), storage.published;
    ghost var e := UpdateFit(storage, call, push, past.initial, past.mark);
    if e.None? {
      es2 := es;
      assert calls + [] == calls;
    } else {
      NextRun(past.st0, past.log0, calls, es, push, st, log, call, e.value);
      es2 := es + [e.value];
    }
  }

  // ---------- troubles ----------

  /** The first i troubles are stored. */
  ghost predicate HasFlagged(storage: MemoryStorage, past: Past, calls: seq<Call>, es: seq<Element>,
          troubles: seq<(Key, Data)>, i: nat, globalTrouble: bool)
    reads storage, storage.data.Values, storage.since.heap.Keys
  {
    match i <= |troubles|
    case true =>
      HasMade(storage, past, calls + FlagCalls(troubles[..i]), es) && globalTrouble == AnyTrouble(troubles[..i])
    case false => false
  }

  /** One turn of the loop over the troubles. */
  method StoreTrouble(storage: MemoryStorage, troubles: seq<(Key, Data)>, i: nat, globalTrouble: bool, push: bool,
          ghost past: Past, ghost calls: seq<Call>, ghost es: seq<Element>)
    returns (any: bool, ghost es2: seq<Element>)
    requires HasFlagged(storage, past, calls, es, troubles, i, globalTrouble) && past.push == push
    requires i < |troubles| && troubles[i].0 != KEY
    modifies storage.Repr()
    ensures HasFlagged(storage, past, calls, es2, troubles, i + 1, any)
    ensures forall x | x in storage.Repr() :: x in old(storage.Repr()) || fresh(x)
  {
    FlagsNext(troubles, i, calls);
    any, es2 := globalTrouble, es;
    if IsFlag(troubles[i].1) {
      TroubleIsDecent(troubles[i].0, troubles[i].1.v.b);
      es2 := UpdateOne(storage, TroubleCall(troubles[i].0, troubles[i].1.v.b), push, past,
                       calls + FlagCalls(troubles[..i]), es2);
      any := any || troubles[i].1.v.b;
    } else {
      assert calls + FlagCalls(troubles[..i]) + [] == calls + FlagCalls(troubles[..i]);
    }
  }

  method StoreTroubles(storage: MemoryStorage, troubles: seq<(Key, Data)>, push: bool, ghost past: Past,
          ghost calls: seq<Call>, ghost es: seq<Element>)
    returns (globalTrouble: bool, ghost es2: seq<Element>)
    requires HasMade(storage, past, calls, es) && past.push == push
    requires forall i | 0 <= i < |troubles| :: troubles[i].0 != KEY
    modifies storage.Repr()
    ensures HasFlagged(storage, past, calls, es2, troubles, |troubles|, globalTrouble)
    ensures forall x | x in storage.Repr() :: x in old(storage.Repr()) || fresh(x)
  {
    globalTrouble, es2 := false, es;
    assert calls + [] == calls;
    for i := 0 to |troubles|
      invariant HasFlagged(storage, past, calls, es2, troubles, i, globalTrouble)
      invariant forall x | x in storage.Repr() :: x in old(storage.Repr()) || fresh(x)
    {
      globalTrouble, es2 := StoreTrouble(storage, troubles, i, globalTrouble, push, past, calls, es2);
    }
  }

  lemma TroubleCallsLast(troubles: seq<(Key, Data)>, calls: seq<Call>)
    ensures calls + TroubleCalls(troubles)
         == calls + FlagCalls(troubles) + Effective(TroubleCall(TROUBLE, AnyTrouble(troubles)))
  {}

  lemma AllFlagged(storage: MemoryStorage, past: Past, calls: seq<Call>, es: seq<Element>,
          troubles: seq<(Key, Data)>, globalTrouble: bool)
    requires HasFlagged(storage, past, calls, es, troubles, |troubles|, globalTrouble)
    ensures HasMade(storage, past, calls + FlagCalls(troubles), es) && globalTrouble == AnyTrouble(troubles)
  {
    assert troubles[..|troubles|] == troubles;
  }

  /** What is stored about troubles says whether some trouble is on. */
  ghost predicate TroubleIs<E>(st: State<E>, on: bool) {
    match GetItem(ContainerOf(st, SYSTEM), TROUBLES)
    case Some(e) => e in st.heap && Old(st.heap[e], TROUBLE) == Leaf(Flag(on))
    case None => false
  }

  lemma TroubleStored<E>(st: State<E>, on: bool, push: bool, e: E)
    requires CoversAll(st) && UpdateObject(st, TroubleCall(TROUBLE, on), push, e).ok
    ensures TroubleIs(UpdateObject(st, TroubleCall(TROUBLE, on), push, e).state, on)
  {
    var call := TroubleCall(TROUBLE, on);
    TroubleIsDecent(TROUBLE, on);
    var (got, x) := GetObject(st, SYSTEM, TROUBLES, e);
    assert GetItem(ContainerOf(got, SYSTEM), TROUBLES) == Some(x);
    ApplySettles(SYSTEM, got.heap[x][KEY], got.heap[x], call.updates, push);
    assert call.updates[0] == (TROUBLE, Value(Leaf(Flag(on))));
  }

  lemma TroubleAtEnd<E>(o: Outcome<E>, calls: seq<Call>, on: bool, es: seq<E>, push: bool)
    requires CoversAll(o.state) && |es| == |calls| + 1
    requires Run(o, calls + [TroubleCall(TROUBLE, on)], es, push).ok
    ensures TroubleIs(Run(o, calls + [TroubleCall(TROUBLE, on)], es, push).state, on)
  {
    var front, last := es[..|calls|], es[|calls|];
    assert es == front + [last];
    RunAppend(o, calls, front, TroubleCall(TROUBLE, on), last, push);
    TroubleStored(Run(o, calls, front, push).state, on, push, last);
  }

  lemma TroubleNow(storage: MemoryStorage, past: Past, calls: seq<Call>, on: bool, es: seq<Element>)
    requires HasMade(storage, past, calls + [TroubleCall(TROUBLE, on)], es)
    ensures TroubleIs(storage.Whole(), on)
  {
    TroubleAtEnd(Outcome(past.st0, past.log0, true), calls, on, es, past.push);
  }

  /** `_process_trouble_statuses`: the element "troubles" of "system" then says whether one is on. */
  method ProcessTroubles(storage: MemoryStorage, troubles: seq<(Key, Data)>, push: bool, ghost past: Past,
          ghost calls: seq<Call>, ghost es: seq<Element>)
    returns (ghost es2: seq<Element>)
    requires HasMade(storage, past, calls, es) && past.push == push
    requires forall i | 0 <= i < |troubles| :: troubles[i].0 != KEY
    modifies storage.Repr()
    ensures HasMade(storage, past, calls + TroubleCalls(troubles), es2)
    ensures TroubleIs(storage.Whole(), AnyTrouble(troubles))
    ensures forall x | x in storage.Repr() :: x in old(storage.Repr()) || fresh(x)
  {
    var globalTrouble;
    globalTrouble, es2 := StoreTroubles(storage, troubles, push, past, calls, es);
    AllFlagged(storage, past, calls, es2, troubles, globalTrouble);
    TroubleIsDecent(TROUBLE, globalTrouble);
    es2 := UpdateOne(storage, TroubleCall(TROUBLE, globalTrouble), push, past, calls + FlagCalls(troubles), es2);
    TroubleNow(storage, past, calls + FlagCalls(troubles), globalTrouble, es2);
    TroubleCallsLast(troubles, calls);
  }

  lemma TroubleIsDecent(name: Key, on: bool)
    requires name != KEY
    ensures AlwaysDecent(TroubleCall(name, on))
  {
    assert !IsDigit("troubles") by { assert "troubles"[0] == 't'; }
  }

  lemma FlagsNext(troubles: seq<(Key, Data)>, i: nat, calls: seq<Call>)
    requires i < |troubles|
    ensures calls + FlagCalls(troubles[..i + 1])
         == calls + FlagCalls(troubles[..i])
            + if IsFlag(troubles[i].1) then Effective(TroubleCall(troubles[i].0, troubles[i].1.v.b)) else []
    ensures AnyTrouble(troubles[..i + 1]) <==> AnyTrouble(troubles[..i]) || troubles[i].1 == Leaf(Flag(true))
  {
    var more := troubles[..i + 1];
    assert more[..|more| - 1] == troubles[..i] && more[i] == troubles[i];
    if AnyTrouble(troubles[..i]) {
      var j :| 0 <= j < i && troubles[..i][j].1 == Leaf(Flag(true));
      assert more[j].1 == Leaf(Flag(true));
    }
    if AnyTrouble(more) {
      var j :| 0 <= j < |more| && more[j].1 == Leaf(Flag(true));
      assert j < i ==> troubles[..i][j].1 == Leaf(Flag(true));
    }
  }

  // ---------- the status table ----------

  predicate DecentItem(item: Item) {
    match item
    case Item(key, changes) => Transform(key) == key && forall i | 0 <= i < |changes| :: changes[i].0 != KEY
    case _ => true
  }

  predicate DecentItems(items: seq<Item>) {
    forall i | 0 <= i < |items| :: DecentItem(items[i])
  }

  /** The first i elements are stored. */
  ghost predicate HasStored(storage: MemoryStorage, past: Past, calls: seq<Call>, es: seq<Element>, t: string,
          items: seq<Item>, i: nat)
    reads storage, storage.data.Values, storage.since.heap.Keys
  {
    match i <= |items|
    case true => HasMade(storage, past, calls + TypeCalls(t, items[..i]), es) && !HasList(items[..i])
    case false => false
  }

  /** One turn of the loop over the elements of a type. */
  method StoreItem(storage: MemoryStorage, t: string, items: seq<Item>, i: nat, push: bool, ghost past: Past,
          ghost calls: seq<Call>, ghost es: seq<Element>)
    returns (ghost es2: seq<Element>)
    requires HasStored(storage, past, calls, es, t, items, i) && past.push == push
    requires i < |items| && DecentItem(items[i]) && !items[i].Listed?
    modifies storage.Repr()
    ensures HasStored(storage, past, calls, es2, t, items, i + 1)
    ensures forall x | x in storage.Repr() :: x in old(storage.Repr()) || fresh(x)
  {
    ItemsNext(t, items, i, calls);
    es2 := es;
    match items[i] {
      case Item(key, changes) =>
        es2 := UpdateOne(storage, Call(t, key, changes), push, past, calls + TypeCalls(t, items[..i]), es2);
      case Skipped(_) =>
        assert calls + TypeCalls(t, items[..i]) + [] == calls + TypeCalls(t, items[..i]);
    }
  }

  /** The loop over the elements of one type, up to the first list. */
  method UpdateType(storage: MemoryStorage, t: string, items: seq<Item>, push: bool, ghost past: Past,
          ghost calls: seq<Call>, ghost es: seq<Element>)
    returns (raised: bool, ghost es2: seq<Element>)
    requires HasMade(storage, past, calls, es) && past.push == push && DecentItems(items)
    modifies storage.Repr()
    ensures HasMade(storage, past, calls + TypeCalls(t, BeforeList(items)), es2) && raised == HasList(items)
    ensures forall x | x in storage.Repr() :: x in old(storage.Repr()) || fresh(x)
  {
    raised, es2 := false, es;
    assert calls + [] == calls;
    for i := 0 to |items|
      invariant HasStored(storage, past, calls, es2, t, items, i)
      invariant forall x | x in storage.Repr() :: x in old(storage.Repr()) || fresh(x)
    {
      if items[i].Listed? {
        ItemsNext(t, items, i, calls);
        raised := true;
        return;
      }
      assert DecentItem(items[i]);
      es2 := StoreItem(storage, t, items, i, push, past, calls, es2);
    }
    assert items[..|items|] == items;
  }

  predicate HasList(items: seq<Item>) {
    exists i | 0 <= i < |items| :: items[i].Listed?
  }

  /** The items before the first list. */
  function BeforeList(items: seq<Item>): (r: seq<Item>)
    ensures r <= items && !HasList(r)
    ensures !HasList(items) ==> r == items
    ensures HasList(items) ==> |r| < |items| && items[|r|].Listed?
  {
    if items == [] then []
    else
      var before := BeforeList(items[..|items| - 1]);
      if |before| < |items| - 1 || items[|items| - 1].Listed? then before else items
  }

  lemma ItemsNext(t: string, items: seq<Item>, i: nat, calls: seq<Call>)
    requires i < |items| && !HasList(items[..i])
    ensures calls + TypeCalls(t, items[..i + 1]) == calls + TypeCalls(t, items[..i]) + ItemCalls(t, items[i])
    ensures if items[i].Listed? then HasList(items) && BeforeList(items) == items[..i] else !HasList(items[..i + 1])
  {
    NextCalls(t, items, i);
    NoListYet(items, i);
    if items[i].Listed? {
      ListFirst(items, i);
    }
  }

  lemma NextCalls(t: string, items: seq<Item>, i: nat)
    requires i < |items|
    ensures TypeCalls(t, items[..i + 1]) == TypeCalls(t, items[..i]) + ItemCalls(t, items[i])
  {
    var more := items[..i + 1];
    assert more[..|more| - 1] == items[..i];
  }

  lemma NoListYet(items: seq<Item>, i: nat)
    requires i < |items| && !HasList(items[..i])
    ensures forall j | 0 <= j < i :: !items[j].Listed?
    ensures !items[i].Listed? ==> !HasList(items[..i + 1])
  {
    forall j | 0 <= j < i
      ensures !items[j].Listed?
    {
      assert items[..i][j] == items[j];
    }
  }

  lemma ListFirst(items: seq<Item>, i: nat)
    requires i < |items| && items[i].Listed? && forall j | 0 <= j < i :: !items[j].Listed?
    ensures HasList(items) && BeforeList(items) == items[..i]
  {
    var before := BeforeList(items);
    assert forall j | 0 <= j < |before| :: !before[j].Listed? && before[j] == items[j];
  }

  /** The status table: the elements of each type, in order. */
  type Status = seq<(string, seq<Item>)>

  /** The types before the one with the first list; "troubles" is passed over. */
  predicate Raises(status: Status) {
    exists i | 0 <= i < |status| :: status[i].0 != "troubles" && HasList(status[i].1)
  }

  /** The calls for the status table: those before the first list. */
  function StatusCalls(status: Status): seq<Call> {
    if status == [] then []
    else
      var front, last := status[..|status| - 1], status[|status| - 1];
      if Raises(front) || last.0 == "troubles" then StatusCalls(front)
      else StatusCalls(front) + TypeCalls(last.0, BeforeList(last.1))
  }

  lemma StatusNext(status: Status, i: nat, calls: seq<Call>)
    requires i < |status| && !Raises(status[..i])
    ensures calls + StatusCalls(status[..i + 1])
         == calls + StatusCalls(status[..i])
            + if status[i].0 == "troubles" then [] else TypeCalls(status[i].0, BeforeList(status[i].1))
    ensures Raises(status[..i + 1]) <==> status[i].0 != "troubles" && HasList(status[i].1)
  {
    var more := status[..i + 1];
    assert more[..|more| - 1] == status[..i] && more[i] == status[i];
    forall j | 0 <= j < i
      ensures more[j] == status[j] && !(status[j].0 != "troubles" && HasList(status[j].1))
    {
      assert status[..i][j] == status[j];
    }
  }

  lemma {:induction false} RaisedStays(status: Status, i: nat)
    requires i <= |status| && Raises(status[..i])
    ensures Raises(status) && StatusCalls(status) == StatusCalls(status[..i])
    decreases |status| - i
  {
    if i == |status| {
      assert status[..i] == status;
    } else {
      var more := status[..i + 1];
      assert more[..|more| - 1] == status[..i];
      var j :| 0 <= j < i && status[..i][j].0 != "troubles" && HasList(status[..i][j].1);
      assert more[j].0 != "troubles" && HasList(more[j].1);
      RaisedStays(status, i + 1);
    }
  }

  predicate DecentStatus(status: Status) {
    forall i | 0 <= i < |status| :: status[i].0 != "troubles" ==> DecentItems(status[i].1)
  }

  /** The first i types are stored. */
  ghost predicate HasUpdated(storage: MemoryStorage, past: Past, calls: seq<Call>, es: seq<Element>, status: Status,
          i: nat, raised: bool)
    reads storage, storage.data.Values, storage.since.heap.Keys
  {
    match i <= |status|
    case true => HasMade(storage, past, calls + StatusCalls(status[..i]), es) && raised == Raises(status[..i])
    case false => false
  }

  /** One turn of the loop over the types. */
  method StoreType(storage: MemoryStorage, status: Status, i: nat, push: bool, ghost past: Past,
          ghost calls: seq<Call>, ghost es: seq<Element>)
    returns (raised: bool, ghost es2: seq<Element>)
    requires HasUpdated(storage, past, calls, es, status, i, false) && past.push == push
    requires i < |status| && (status[i].0 != "troubles" ==> DecentItems(status[i].1))
    modifies storage.Repr()
    ensures HasUpdated(storage, past, calls, es2, status, i + 1, raised)
    ensures forall x | x in storage.Repr() :: x in old(storage.Repr()) || fresh(x)
  {
    StatusNext(status, i, calls);
    raised, es2 := false, es;
    if status[i].0 != "troubles" {
      raised, es2 := UpdateType(storage, status[i].0, status[i].1, push, past, calls + StatusCalls(status[..i]), es2);
    } else {
      assert calls + StatusCalls(status[..i]) + [] == calls + StatusCalls(status[..i]);
    }
  }

  /** The loops over the status table. */
  method UpdateTypes(storage: MemoryStorage, status: Status, push: bool, ghost past: Past, ghost calls: seq<Call>,
          ghost es: seq<Element>)
    returns (raised: bool, ghost es2: seq<Element>)
    requires HasMade(storage, past, calls, es) && past.push == push && DecentStatus(status)
    modifies storage.Repr()
    ensures HasMade(storage, past, calls + StatusCalls(status), es2) && raised == Raises(status)
    ensures forall x | x in storage.Repr() :: x in old(storage.Repr()) || fresh(x)
  {
    raised, es2 := false, es;
    assert calls + [] == calls;
    for i := 0 to |status|
      invariant HasUpdated(storage, past, calls, es2, status, i, false)
      invariant forall x | x in storage.Repr() :: x in old(storage.Repr()) || fresh(x)
    {
      raised, es2 := StoreType(storage, status, i, push, past, calls, es2);
      if raised {
        RaisedStays(status, i + 1);
        return;
      }
    }
    assert status[..|status|] == status;
  }

  // ---------- the partitions ----------

  /** What a refresh of all partitions makes of a store and its log. */
  ghost predicate IsRefreshed(st: State<Element>, log: seq<Change>, push: bool, now: State<Element>,
          published: seq<Change>)
  {
    match CoversAll(st) && Covers(ContainerOf(st, PARTITION), st.heap)
    case true =>
      var c := ContainerOf(st, PARTITION);
      var pass := RefreshAll(c, Pass(st.heap, []), c.keys, push);
      now == WithContainer(st, PARTITION).(heap := pass.heap) && published == log + pass.log
    case false => false
  }

  lemma FitToRefresh(storage: MemoryStorage)
    requires storage.Valid() && PartitionsLookable(storage.Whole())
    ensures PARTITION in storage.data ==> storage.data[PARTITION].Pictured(storage.since.heap)
    ensures PARTITION in storage.data ==> storage.data[PARTITION].Elements() <= storage.since.heap.Keys
    ensures Lookable(storage.ModelOf(PARTITION), Pass(storage.since.heap, []))
    ensures storage.ModelOf(PARTITION) == ContainerOf(storage.Whole(), PARTITION) && CoversAll(storage.Whole())
  {
    if PARTITION in storage.data {
      storage.ElementsKnown(PARTITION);
      assert PicturedAt(storage.data, PARTITION, storage.since.heap);
      var c := storage.Whole().data[PARTITION];
      assert Agrees(c, storage.since.heap);
      forall k | k in c.items
        ensures HasLookupKey(storage.since.heap[c.items[k]])
      {
        assert Has(storage.Whole(), PARTITION, k, c.items[k]);
      }
    }
  }

  lemma {:induction false} RefreshAllKeepsLookable<E>(c: Container<E>, pass: Pass<E>, keys: seq<Key>, push: bool)
    requires Covers(c, pass.heap) && AllLookable(c, pass.heap) && forall k | k in keys :: k in c.items
    ensures AllLookable(c, RefreshAll(c, pass, keys, push).heap)
    decreases |keys|
  {
    if keys != [] {
      RefreshKeepsLookable(c, pass, c.items[keys[0]], push);
      RefreshAllKeepsLookable(c, RefreshAt(pass, c.items[keys[0]], push), keys[1..], push);
    }
  }

  lemma RefreshedLookable(st: State<Element>, log: seq<Change>, push: bool, now: State<Element>,
          published: seq<Change>)
    requires PartitionsLookable(st) && IsRefreshed(st, log, push, now, published)
    ensures PartitionsLookable(now)
  {
    var c := ContainerOf(st, PARTITION);
    forall k | k in c.items
      ensures HasLookupKey(st.heap[c.items[k]])
    {
      assert Has(st, PARTITION, k, c.items[k]);
    }
    RefreshAllKeepsLookable(c, Pass(st.heap, []), c.keys, push);
  }

  lemma RefreshedMeans(st: State<Element>, log: seq<Change>, push: bool, now: State<Element>, published: seq<Change>,
          pass: Pass<Element>, n: nat)
    requires CoversAll(st) && Covers(ContainerOf(st, PARTITION), st.heap) && n == |ContainerOf(st, PARTITION).keys|
    requires var c := ContainerOf(st, PARTITION); pass == RefreshAll(c, Pass(st.heap, []), c.keys[..n], push)
    requires now == WithContainer(st, PARTITION).(heap := pass.heap) && published == log + pass.log
    ensures IsRefreshed(st, log, push, now, published)
  {
    assert ContainerOf(st, PARTITION).keys[..n] == ContainerOf(st, PARTITION).keys;
  }

  /** The refresh at the end of `_on_status_update`. */
  method RefreshFit(storage: MemoryStorage, push: bool)
    requires storage.Valid() && PartitionsLookable(storage.Whole())
    modifies storage.Repr()
    ensures IsFit(storage, old(storage.since).initial, old(storage.since).mark)
    ensures IsRefreshed(old(storage.Whole()), old(storage.published), push, storage.Whole(), storage.published)
    ensures forall x | x in storage.Repr() :: x in old(storage.Repr()) || fresh(x)
  {
    ghost var st, log := storage.Whole(), storage.published;
    FitToRefresh(storage);
    var raised;
    ghost var pass, n;
    raised, pass, n := UpdatePartitionStates(storage, push, storage.since.heap);
    RefreshedMeans(st, log, push, storage.Whole(), storage.published, pass, n);
    RefreshedLookable(st, log, push, storage.Whole(), storage.published);
  }

  /** The calls for the troubles, if there are any to process. */
  function FirstCalls(troubles: Option<seq<(Key, Data)>>): seq<Call> {
    if troubles.Some? then TroubleCalls(troubles.value) else []
  }

  /** The calls that a status update makes before the partitions are refreshed. */
  function CallsOf(status: Status, troubles: Option<seq<(Key, Data)>>): seq<Call> {
    FirstCalls(troubles) + StatusCalls(status)
  }

  predicate DecentTroubles(troubles: Option<seq<(Key, Data)>>) {
    troubles.Some? ==> forall i | 0 <= i < |troubles.value| :: troubles.value[i].0 != KEY
  }

  /** The troubles first. */
  method ProcessFirst(storage: MemoryStorage, troubles: Option<seq<(Key, Data)>>, push: bool, ghost past: Past)
    returns (ghost es: seq<Element>)
    requires HasMade(storage, past, [], []) && past.push == push && DecentTroubles(troubles)
    modifies storage.Repr()
    ensures HasMade(storage, past, FirstCalls(troubles), es)
    ensures forall x | x in storage.Repr() :: x in old(storage.Repr()) || fresh(x)
  {
    es := [];
    if troubles.Some? {
      assert [] + TroubleCalls(troubles.value) == TroubleCalls(troubles.value);
      es := ProcessTroubles(storage, troubles.value, push, past, [], []);
    }
  }

  /** All calls before the refresh. */
  method UpdateAll(storage: MemoryStorage, status: Status, troubles: Option<seq<(Key, Data)>>, push: bool,
          ghost past: Past)
    returns (raised: bool, ghost es: seq<Element>)
    requires HasMade(storage, past, [], []) && past.push == push && DecentTroubles(troubles) && DecentStatus(status)
    modifies storage.Repr()
    ensures HasMade(storage, past, CallsOf(status, troubles), es) && raised == Raises(status)
    ensures forall x | x in storage.Repr() :: x in old(storage.Repr()) || fresh(x)
  {
    es := ProcessFirst(storage, troubles, push, past);
    raised, es := UpdateTypes(storage, status, push, past, FirstCalls(troubles), es);
  }

  lemma NothingMade(storage: MemoryStorage, push: bool)
    requires storage.Valid() && PartitionsLookable(storage.Whole())
    ensures HasMade(storage, Past(storage.since.initial, storage.since.mark, storage.Whole(), storage.published, push),
                    [], [])
  {
    GoodNow(storage);
  }

  lemma MadeMeans(storage: MemoryStorage, past: Past, calls: seq<Call>, es: seq<Element>)
    requires HasMade(storage, past, calls, es)
    ensures storage.Valid() && PartitionsLookable(storage.Whole())
    ensures storage.since.initial == past.initial && storage.since.mark == past.mark
    ensures CoversAll(past.st0) && |es| == |calls|
    ensures Run(Outcome(past.st0, past.log0, true), calls, es, past.push)
         == Outcome(storage.Whole(), storage.published, true)
  {}

  /** Unless a list has made a call raise, the partitions are refreshed. */
  method RefreshUnless(storage: MemoryStorage, raised: bool, push: bool)
    requires storage.Valid() && PartitionsLookable(storage.Whole())
    modifies storage.Repr()
    ensures IsFit(storage, old(storage.since).initial, old(storage.since).mark)
    ensures if raised then storage.Whole() == old(storage.Whole()) && storage.published == old(storage.published)
            else IsRefreshed(old(storage.Whole()), old(storage.published), push, storage.Whole(), storage.published)
    ensures forall x | x in storage.Repr() :: x in old(storage.Repr()) || fresh(x)
  {
    if !raised {
      RefreshFit(storage, push);
    }
  }

  /** `_on_status_update`; `troubles` is what the table has under "troubles". The calls lead, in order,
      from the store to `mid`, and unless a list makes one raise, the partitions are refreshed then. The
      log mirrors the store before and after. */
  method OnStatusUpdate(storage: MemoryStorage, status: Status, troubles: Option<seq<(Key, Data)>>, push: bool)
    returns (raised: bool, ghost es: seq<Element>, ghost mid: State<Element>, ghost log: seq<Change>)
    requires storage.Valid() && PartitionsLookable(storage.Whole()) && DecentStatus(status)
    requires DecentTroubles(troubles)
    modifies storage.Repr()
    ensures IsFit(storage, old(storage.since).initial, old(storage.since).mark)
    ensures forall x | x in storage.Repr() :: x in old(storage.Repr()) || fresh(x)
    ensures CoversAll(old(storage.Whole())) && |es| == |CallsOf(status, troubles)| && raised == Raises(status)
    ensures Run(Outcome(old(storage.Whole()), old(storage.published), true), CallsOf(status, troubles), es, push)
         == Outcome(mid, log, true)
    ensures if raised then storage.Whole() == mid && storage.published == log
            else IsRefreshed(mid, log, push, storage.Whole(), storage.published)
  {
    ghost var past := Past(storage.since.initial, storage.since.mark, storage.Whole(), storage.published, push);
    NothingMade(storage, push);
    raised, es := UpdateAll(storage, status, troubles, push, past);
    MadeMeans(storage, past, CallsOf(status, troubles), es);
    mid, log := storage.Whole(), storage.published;
    RefreshUnless(storage, raised, push);
  }
}
