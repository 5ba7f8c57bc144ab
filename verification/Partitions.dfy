/** `_update_partition_states` of paradox/paradox.py: the states of the partitions are derived from
    their flags and stored. */
module Partitions {
  import opened Wrappers
  import opened DeepMerge
  import opened Containers
  import opened ElementContainers
  import opened Storage
  import opened StorageRuns
  import opened MemoryStorages

  const PARTITION := "partition"
  const CURRENT_STATE := Text("current_state")
  const TARGET_STATE := Text("target_state")

  /** bool(d) in Python. */
  predicate Truthy(d: Data) {
    match d
    case Leaf(Nil) => false
    case Leaf(Flag(b)) => b
    case Leaf(Number(n)) => n != 0
    case Leaf(String(s)) => s != ""
    case Leaf(Opaque(_)) => true
    case List(xs) => xs != []
    case Dict(m) => m != map[]
  }

  predicate Is(p: Props, flag: string) {
    Truthy(Old(p, Text(flag)))
  }

  predicate InAlarm(p: Props) {
    Is(p, "fire_alarm") || Is(p, "audible_alarm") || Is(p, "silent_alarm") || Is(p, "panic_alarm")
  }

  function ArmedState(p: Props): string {
    if !Is(p, "arm") then "disarmed"
    else if Is(p, "arm_stay") then "armed_home"
    else if Is(p, "arm_sleep") || Is(p, "arm_no_entry") then "armed_night"
    else "armed_away"
  }

  function Set(name: Key, s: string): (Key, Update) {
    (name, Value(Leaf(String(s))))
  }

  /** The `change` dictionary; its items are in the order in which they are first assigned. */
  function PartitionChange(p: Props): Updates {
    var leaving := Is(p, "exit_delay");
    if InAlarm(p) then [Set(CURRENT_STATE, if leaving then "arming" else "triggered")]
    else
      var armed := ArmedState(p);
      var current := Set(CURRENT_STATE, if leaving then "arming" else armed);
      if Is(p, "arm") then [current, Set(TARGET_STATE, armed)] else [Set(TARGET_STATE, armed), current]
  }

  lemma PartitionChangeIsPlain(p: Props)
    ensures PlainValues(PartitionChange(p)) && DistinctNames(PartitionChange(p))
    ensures forall i | 0 <= i < |PartitionChange(p)| :: PartitionChange(p)[i].0 in {CURRENT_STATE, TARGET_STATE}
  {}

  function Refreshed(p: Props, push: bool): Effect {
    Apply(PARTITION, Old(p, KEY), p, PartitionChange(p), push)
  }

  lemma OtherPropertyKept(p: Props, push: bool, name: Key)
    requires name != CURRENT_STATE && name != TARGET_STATE
    ensures Old(Refreshed(p, push).props, name) == Old(p, name)
  {
    PartitionChangeIsPlain(p);
    ApplyLeaves(PARTITION, Old(p, KEY), p, PartitionChange(p), push, name);
  }

  lemma SameFlags(p: Props, q: Props)
    requires Is(p, "fire_alarm") == Is(q, "fire_alarm") && Is(p, "audible_alarm") == Is(q, "audible_alarm")
    requires Is(p, "silent_alarm") == Is(q, "silent_alarm") && Is(p, "panic_alarm") == Is(q, "panic_alarm")
    requires Is(p, "arm") == Is(q, "arm") && Is(p, "arm_stay") == Is(q, "arm_stay")
    requires Is(p, "arm_sleep") == Is(q, "arm_sleep")
    requires Is(p, "arm_no_entry") == Is(q, "arm_no_entry") && Is(p, "exit_delay") == Is(q, "exit_delay")
    ensures PartitionChange(p) == PartitionChange(q)
  {
    assert InAlarm(q) == InAlarm(p) && ArmedState(q) == ArmedState(p);
  }

  lemma FlagKept(p: Props, q: Props, push: bool, flag: string)
    requires flag != "current_state" && flag != "target_state" && q == Refreshed(p, push).props
    ensures Is(p, flag) == Is(q, flag)
  {
    OtherPropertyKept(p, push, Text(flag));
  }

  /** The refresh does not change what it is derived from, so the next one derives the same. */
  lemma SameChangeAgain(p: Props, q: Props, push: bool)
    requires q == Refreshed(p, push).props
    ensures PartitionChange(q) == PartitionChange(p)
  {
    FlagKept(p, q, push, "fire_alarm");
    FlagKept(p, q, push, "audible_alarm");
    FlagKept(p, q, push, "silent_alarm");
    FlagKept(p, q, push, "panic_alarm");
    FlagKept(p, q, push, "arm");
    FlagKept(p, q, push, "arm_stay");
    FlagKept(p, q, push, "arm_sleep");
    FlagKept(p, q, push, "arm_no_entry");
    FlagKept(p, q, push, "exit_delay");
    SameFlags(p, q);
  }

  /** A second refresh of a partition publishes nothing and changes nothing. */
  lemma SecondRefreshIsSilent(p: Props, push: bool)
    ensures var q := Refreshed(p, push).props; Refreshed(q, false) == Effect(q, [])
  {
    PartitionChangeIsPlain(p);
    SameChangeAgain(p, Refreshed(p, push).props, push);
    OtherPropertyKept(p, push, KEY);
    ReapplyIsSilent(PARTITION, Old(p, KEY), p, PartitionChange(p), push);
  }

  /** What the states are after a refresh: leaving goes before alarm, alarm before arming; the target is
      left alone in an alarm. */
  lemma StatesAfterRefresh(p: Props, push: bool)
    ensures var q := Refreshed(p, push).props;
      && Old(q, CURRENT_STATE) == Leaf(String(
           if Is(p, "exit_delay") then "arming" else if InAlarm(p) then "triggered" else ArmedState(p)))
      && Old(q, TARGET_STATE) == if InAlarm(p) then Old(p, TARGET_STATE) else Leaf(String(ArmedState(p)))
  {
    var u := PartitionChange(p);
    var q := Refreshed(p, push).props;
    PartitionChangeIsPlain(p);
    ApplySettles(PARTITION, Old(p, KEY), p, u, push);
    assert u[0].0 in q && q[u[0].0] == u[0].1.d;
    if InAlarm(p) {
      ApplyLeaves(PARTITION, Old(p, KEY), p, u, push, TARGET_STATE);
    } else {
      assert u[1].0 in q && q[u[1].0] == u[1].1.d;
    }
  }

  /** The target state is a state one can aim at. */
  predicate TargetIsPlain(p: Props) {
    Old(p, TARGET_STATE) != Leaf(String("triggered")) && Old(p, TARGET_STATE) != Leaf(String("arming"))
  }

  lemma RefreshKeepsTargetPlain(p: Props, push: bool)
    requires TargetIsPlain(p)
    ensures TargetIsPlain(Refreshed(p, push).props)
  {
    StatesAfterRefresh(p, push);
  }

  // ---------- all partitions ----------

  /** The properties of all elements, and what has been published. */
  datatype Pass<E> = Pass(heap: map<E, Props>, log: seq<Change>)

  /** One turn of the loop of `_update_partition_states`. */
  function RefreshAt<E>(pass: Pass<E>, e: E, push: bool): Pass<E>
    requires e in pass.heap
  {
    var r := Refreshed(pass.heap[e], push);
    Pass(pass.heap[e := r.props], pass.log + r.log)
  }

  /** The loop of `_update_partition_states`, from a state in which `pass` has happened. */
  function RefreshAll<E>(c: Container<E>, pass: Pass<E>, keys: seq<Key>, push: bool): (r: Pass<E>)
    requires Covers(c, pass.heap) && forall k | k in keys :: k in c.items
    ensures r.heap.Keys == pass.heap.Keys
    decreases |keys|
  {
    if keys == [] then pass else RefreshAll(c, RefreshAt(pass, c.items[keys[0]], push), keys[1..], push)
  }

  predicate OnceEach<E(==)>(c: Container<E>, keys: seq<Key>)
    requires forall k | k in keys :: k in c.items
  {
    forall i, j | 0 <= i < j < |keys| :: c.items[keys[i]] != c.items[keys[j]]
  }

  /** Every partition is refreshed once, and nothing else is changed. */
  lemma {:induction false} EachIsRefreshed<E>(c: Container<E>, pass: Pass<E>, keys: seq<Key>, push: bool, e: E)
    requires Covers(c, pass.heap) && (forall k | k in keys :: k in c.items) && OnceEach(c, keys) && e in pass.heap
    ensures RefreshAll(c, pass, keys, push).heap[e]
         == if exists i | 0 <= i < |keys| :: c.items[keys[i]] == e then Refreshed(pass.heap[e], push).props
            else pass.heap[e]
    decreases |keys|
  {
    if keys != [] {
      var first := c.items[keys[0]];
      assert forall i | 0 <= i < |keys[1..]| :: keys[1..][i] == keys[i + 1];
      EachIsRefreshed(c, RefreshAt(pass, first, push), keys[1..], push, e);
      if e == first {
        assert c.items[keys[0]] == e;
      } else if i :| 0 <= i < |keys| && c.items[keys[i]] == e {
        assert c.items[keys[1..][i - 1]] == e;
      }
    }
  }

  predicate Quiet(p: Props) {
    Refreshed(p, false) == Effect(p, [])
  }

  lemma {:induction false} QuietPass<E>(c: Container<E>, pass: Pass<E>, keys: seq<Key>)
    requires Covers(c, pass.heap) && forall k | k in keys :: k in c.items && Quiet(pass.heap[c.items[k]])
    ensures RefreshAll(c, pass, keys, false) == pass
    decreases |keys|
  {
    if keys != [] {
      var e := c.items[keys[0]];
      assert Quiet(pass.heap[e]);
      assert pass.heap[e := pass.heap[e]] == pass.heap && pass.log + [] == pass.log;
      QuietPass(c, pass, keys[1..]);
    }
  }

  lemma OnceEachKey<E>(c: Container<E>, heap: map<E, Props>)
    requires Agrees(c, heap)
    ensures OnceEach(c, c.keys)
  {}

  lemma QuietAfter<E>(c: Container<E>, pass: Pass<E>, push: bool, k: Key)
    requires Covers(c, pass.heap) && OnceEach(c, c.keys) && k in c.keys
    ensures Quiet(RefreshAll(c, pass, c.keys, push).heap[c.items[k]])
  {
    EachIsRefreshed(c, pass, c.keys, push, c.items[k]);
    SecondRefreshIsSilent(pass.heap[c.items[k]], push);
  }

  /** A repeated refresh of all partitions publishes nothing and changes nothing. */
  lemma RepeatedRefreshIsSilent<E>(c: Container<E>, pass: Pass<E>, push: bool)
    requires Agrees(c, pass.heap)
    ensures var after := RefreshAll(c, pass, c.keys, push);
      Covers(c, after.heap) && RefreshAll(c, after, c.keys, false) == after
  {
    var after := RefreshAll(c, pass, c.keys, push);
    OnceEachKey(c, pass.heap);
    forall k | k in c.keys
      ensures Quiet(after.heap[c.items[k]])
    {
      QuietAfter(c, pass, push, k);
    }
    QuietPass(c, after, c.keys);
  }

  /** No refresh makes a target state "triggered" or "arming". */
  lemma TargetsStayPlain<E>(c: Container<E>, pass: Pass<E>, push: bool)
    requires Agrees(c, pass.heap) && forall k | k in c.items :: TargetIsPlain(pass.heap[c.items[k]])
    ensures forall k | k in c.items :: TargetIsPlain(RefreshAll(c, pass, c.keys, push).heap[c.items[k]])
  {
    forall k | k in c.items
      ensures TargetIsPlain(RefreshAll(c, pass, c.keys, push).heap[c.items[k]])
    {
      EachIsRefreshed(c, pass, c.keys, push, c.items[k]);
      RefreshKeepsTargetPlain(pass.heap[c.items[k]], push);
    }
  }

  // ---------- the calls it makes ----------

  /** `properties["key"]` as a key to look up. */
  function LookupKey(p: Props): Key {
    match Old(p, KEY)
    case Leaf(Number(n)) => Id(n)
    case Leaf(String(s)) => Text(s)
    case _ => Text("")
  }

  function PartitionCall(p: Props): Call {
    Call(PARTITION, LookupKey(p), PartitionChange(p))
  }

  /** The call for a partition with a text key finds it again, and does to the store what the refresh
      of that partition does. */
  lemma CallRefreshes<E>(st: State<E>, k: Key, push: bool, spare: E)
    requires Good(st) && PARTITION in st.data && k in st.data[PARTITION].items
    requires HasLookupKey(st.heap[st.data[PARTITION].items[k]])
    ensures var e := st.data[PARTITION].items[k]; var p := st.heap[e];
      && Proper(st, PartitionCall(p), spare)
      && UpdateObject(st, PartitionCall(p), push, spare)
         == Outcome(st.(heap := st.heap[e := Refreshed(p, push).props]), Refreshed(p, push).log, true)
  {
    var c := st.data[PARTITION];
    var e := c.items[k];
    var p := st.heap[e];
    PartitionChangeIsPlain(p);
    assert Agrees(c, st.heap);
    assert TextKey(p).value in c.index && c.index[TextKey(p).value] == e;
    assert GetItem(c, LookupKey(p)) == Some(e);
    FoundUnchanged(st, PARTITION, LookupKey(p), spare);
  }

  // ---------- the loop ----------

  lemma {:induction false} RefreshAppend<E>(c: Container<E>, pass: Pass<E>, keys: seq<Key>, k: Key, push: bool)
    requires Covers(c, pass.heap) && (forall j | j in keys :: j in c.items) && k in c.items
    ensures RefreshAll(c, pass, keys + [k], push) == RefreshAt(RefreshAll(c, pass, keys, push), c.items[k], push)
    decreases |keys|
  {
    var all := keys + [k];
    if keys == [] {
      assert all[1..] == [];
    } else {
      assert all[1..] == keys[1..] + [k];
      RefreshAppend(c, RefreshAt(pass, c.items[keys[0]], push), keys[1..], k, push);
    }
  }

  lemma RefreshPrefix<E>(c: Container<E>, pass: Pass<E>, i: nat, push: bool)
    requires Covers(c, pass.heap) && i < |c.keys|
    ensures RefreshAll(c, pass, c.keys[..i + 1], push)
         == RefreshAt(RefreshAll(c, pass, c.keys[..i], push), c.items[c.keys[i]], push)
  {
    PrefixGrows(c.keys, i);
    RefreshAppend(c, pass, c.keys[..i], c.keys[i], push);
  }

  lemma PrefixGrows(keys: seq<Key>, i: nat)
    requires i < |keys|
    ensures keys[..i + 1] == keys[..i] + [keys[i]]
    ensures forall k | k in keys[..i] :: k in keys
  {}

  /** The element's text key is one that can be looked up. */
  predicate HasLookupKey(p: Props) {
    TextKey(p).Some? && (TextKey(p).value.String? || TextKey(p).value.Number?)
  }

  /** The container's index is right, and elements that have a "key" can be looked up by it. */
  ghost predicate Lookable<E>(c: Container<E>, pass: Pass<E>) {
    match pass
    case Pass(heap, _) =>
      Agrees(c, heap) && forall k | k in c.items && KEY in heap[c.items[k]] :: HasLookupKey(heap[c.items[k]])
  }

  lemma LookupFinds<E>(c: Container<E>, pass: Pass<E>, k: Key)
    requires Lookable(c, pass) && k in c.items && KEY in pass.heap[c.items[k]]
    ensures c.items[k] in pass.heap && GetItem(c, LookupKey(pass.heap[c.items[k]])) == Some(c.items[k])
  {
    var text := TextKey(pass.heap[c.items[k]]).value;
    assert text in c.index && c.index[text] == c.items[k];
  }

  lemma StaysLookable<E>(c: Container<E>, pass: Pass<E>, k: Key, push: bool)
    requires Lookable(c, pass) && k in c.items
    ensures c.items[k] in pass.heap && Lookable(c, RefreshAt(pass, c.items[k], push))
  {
    var e := c.items[k];
    var p := pass.heap[e];
    PartitionChangeIsPlain(p);
    ApplyLeaves(PARTITION, Old(p, KEY), p, PartitionChange(p), push, KEY);
    AgreesSameTexts(c, pass.heap, RefreshAt(pass, e, push).heap);
  }

  lemma KnownOutcome<E>(st: State<E>, t: string, key: Key, updates: Updates, push: bool, spare: E, e: E)
    requires CoversAll(st) && updates != [] && GetItem(ContainerOf(st, t), key) == Some(e)
    requires e in st.heap && KEY in st.heap[e]
    ensures var a := Apply(t, st.heap[e][KEY], st.heap[e], updates, push);
      UpdateObject(st, Call(t, key, updates), push, spare) == Outcome(st.(heap := st.heap[e := a.props]), a.log, true)
  {
    FoundUnchanged(st, t, key, spare);
  }

  /** `update_container_object` on an element that the key finds. */
  method UpdateKnown(storage: MemoryStorage, container: ElementTypeContainer, e: Element, key: Key,
          updates: Updates, push: bool, ghost heap: map<Element, Props>)
    requires PARTITION in storage.data && storage.data[PARTITION] == container && container.Pictured(heap)
    requires GetItem(container.Model(), key) == Some(e) && e in container.Elements() && KEY in e.props && updates != []
    modifies storage`published, container, container.Elements()
    ensures PARTITION in storage.data && storage.data[PARTITION] == container
    ensures container.Model() == old(container.Model())
    ensures var a := Apply(PARTITION, old(e.props[KEY]), old(e.props), updates, push);
      container.Pictured(heap[e := a.props]) && storage.published == old(storage.published) + a.log
  {
    ghost var before := storage.StateOf(PARTITION, heap);
    FoundUnchanged(before, PARTITION, key, e);
    var ok, x := storage.UpdateIn(PARTITION, key, updates, push, before);
    KnownOutcome(before, PARTITION, key, updates, push, x, e);
  }

  /** The store is where the pass has come to. */
  ghost predicate IsAt(cs: ByName, published: seq<Change>, container: ElementTypeContainer, c: Container<Element>,
          before: seq<Change>, pass: Pass<Element>)
    reads container, container.Elements()
  {
    match pass
    case Pass(heap, log) =>
      && PARTITION in cs && cs[PARTITION] == container && container.Model() == c
      && container.Pictured(heap) && published == before + log
  }

  lemma IsAtKnows(storage: MemoryStorage, container: ElementTypeContainer, c: Container<Element>,
          before: seq<Change>, pass: Pass<Element>, k: Key)
    requires IsAt(storage.data, storage.published, container, c, before, pass) && k in c.items
    ensures var e := c.items[k]; e in container.Elements() && e in pass.heap && e.props == pass.heap[e]
  {}

  lemma PublishedTwice(before: seq<Change>, xs: seq<Change>, ys: seq<Change>)
    ensures (before + xs) + ys == before + (xs + ys)
  {}

  /** One turn of the loop, for the element that the key finds. */
  method RefreshOne(storage: MemoryStorage, container: ElementTypeContainer, e: Element, push: bool,
                    ghost c: Container<Element>, ghost before: seq<Change>, ghost pass: Pass<Element>)
    requires IsAt(storage.data, storage.published, container, c, before, pass)
    requires e in container.Elements() && e in pass.heap && e.props == pass.heap[e]
    requires GetItem(c, LookupKey(e.props)) == Some(e) && KEY in e.props
    modifies storage`published, container, container.Elements()
    ensures IsAt(storage.data, storage.published, container, c, before, RefreshAt(pass, e, push))
  {
    PublishedTwice(before, pass.log, Refreshed(e.props, push).log);
    UpdateKnown(storage, container, e, LookupKey(e.props), PartitionChange(e.props), push, pass.heap);
  }

  /** The partitions before position i have a "key". */
  ghost predicate KeyedUpTo<E>(c: Container<E>, heap: map<E, Props>, i: nat)
    requires Covers(c, heap)
  {
    i <= |c.keys| && forall j | 0 <= j < i :: KEY in heap[c.items[c.keys[j]]]
  }

  /** A refresh does not add or remove a "key". */
  lemma {:induction false} KeyKept<E>(c: Container<E>, pass: Pass<E>, keys: seq<Key>, push: bool, e: E)
    requires Covers(c, pass.heap) && (forall k | k in keys :: k in c.items) && e in pass.heap
    ensures KEY in RefreshAll(c, pass, keys, push).heap[e] <==> KEY in pass.heap[e]
    decreases |keys|
  {
    if keys != [] {
      var first := c.items[keys[0]];
      var p := pass.heap[first];
      PartitionChangeIsPlain(p);
      ApplyLeaves(PARTITION, Old(p, KEY), p, PartitionChange(p), push, KEY);
      KeyKept(c, RefreshAt(pass, first, push), keys[1..], push, e);
    }
  }

  /** The first i partitions are refreshed. */
  ghost predicate HasRefreshed(cs: ByName, published: seq<Change>, container: ElementTypeContainer,
          c: Container<Element>, before: seq<Change>, pass: Pass<Element>, heap: map<Element, Props>, i: nat,
          push: bool)
    reads container, container.Elements()
  {
    match pass
    case Pass(_, _) =>
      && IsAt(cs, published, container, c, before, pass) && Lookable(c, Pass(heap, [])) && Lookable(c, pass)
      && KeyedUpTo(c, heap, i) && pass == RefreshAll(c, Pass(heap, []), c.keys[..i], push)
  }

  lemma ModelNow(storage: MemoryStorage, container: ElementTypeContainer, c: Container<Element>,
          before: seq<Change>, pass: Pass<Element>, heap: map<Element, Props>, i: nat, push: bool)
    requires HasRefreshed(storage.data, storage.published, container, c, before, pass, heap, i, push)
    ensures container.Model() == c
  {}

  lemma NextIsKnown(storage: MemoryStorage, container: ElementTypeContainer, c: Container<Element>,
          before: seq<Change>, pass: Pass<Element>, heap: map<Element, Props>, i: nat, push: bool)
    requires HasRefreshed(storage.data, storage.published, container, c, before, pass, heap, i, push) && i < |c.keys|
    ensures container.Model() == c && IsAt(storage.data, storage.published, container, c, before, pass)
    ensures var e := c.items[c.keys[i]];
      && e in container.Elements() && e in pass.heap && e in heap && e.props == pass.heap[e]
      && (KEY in e.props <==> KEY in heap[e])
  {
    var k := c.keys[i];
    KeyKept(c, Pass(heap, []), c.keys[..i], push, c.items[k]);
    IsAtKnows(storage, container, c, before, pass, k);
  }

  lemma NextCanBeRefreshed(c: Container<Element>, pass: Pass<Element>, heap: map<Element, Props>, i: nat, push: bool)
    requires Lookable(c, Pass(heap, [])) && Lookable(c, pass) && KeyedUpTo(c, heap, i) && i < |c.keys|
    requires pass == RefreshAll(c, Pass(heap, []), c.keys[..i], push)
    requires c.items[c.keys[i]] in pass.heap && KEY in pass.heap[c.items[c.keys[i]]] && KEY in heap[c.items[c.keys[i]]]
    ensures var e := c.items[c.keys[i]];
      && GetItem(c, LookupKey(pass.heap[e])) == Some(e) && Lookable(c, RefreshAt(pass, e, push))
      && KeyedUpTo(c, heap, i + 1)
      && RefreshAt(pass, e, push) == RefreshAll(c, Pass(heap, []), c.keys[..i + 1], push)
  {
    RefreshPrefix(c, Pass(heap, []), i, push);
    StaysLookable(c, pass, c.keys[i], push);
    LookupFinds(c, pass, c.keys[i]);
  }

  /** One turn of the loop for a partition that has a "key". */
  method RefreshKeyed(storage: MemoryStorage, container: ElementTypeContainer, i: nat, push: bool,
          ghost c: Container<Element>, ghost before: seq<Change>, ghost pass: Pass<Element>,
          ghost heap: map<Element, Props>)
    returns (ghost next: Pass<Element>)
    requires HasRefreshed(storage.data, storage.published, container, c, before, pass, heap, i, push) && i < |c.keys|
    requires container.Model() == c && KEY in c.items[c.keys[i]].props
    modifies storage`published, container, container.Elements()
    ensures HasRefreshed(storage.data, storage.published, container, c, before, next, heap, i + 1, push)
  {
    var k := container.keys[i];
    NextIsKnown(storage, container, c, before, pass, heap, i, push);
    NextCanBeRefreshed(c, pass, heap, i, push);
    RefreshOne(storage, container, container.items[k], push, c, before, pass);
    next := RefreshAt(pass, c.items[k], push);
  }

  /** The refresh ends like this: after all partitions, or before the first without "key". */
  ghost predicate Ended(c: Container<Element>, pass: Pass<Element>, heap: map<Element, Props>, n: nat, push: bool,
          raised: bool)
  {
    match Covers(c, heap) && n <= |c.keys|
    case true =>
      && KeyedUpTo(c, heap, n) && raised == (n < |c.keys|) && (raised ==> KEY !in heap[c.items[c.keys[n]]])
      && Lookable(c, Pass(heap, [])) && Lookable(c, pass)
      && pass == RefreshAll(c, Pass(heap, []), c.keys[..n], push)
    case false => false
  }

  lemma EndsAs(storage: MemoryStorage, container: ElementTypeContainer, c: Container<Element>,
          before: seq<Change>, pass: Pass<Element>, heap: map<Element, Props>, n: nat, push: bool, raised: bool)
    requires HasRefreshed(storage.data, storage.published, container, c, before, pass, heap, n, push)
    requires if raised then n < |c.keys| && Covers(c, heap) && KEY !in heap[c.items[c.keys[n]]] else n == |c.keys|
    ensures Ended(c, pass, heap, n, push, raised)
    ensures IsAt(storage.data, storage.published, container, c, before, pass)
  {}

  /** The loop of `_update_partition_states`, over the partitions up to the first without "key". */
  method RefreshPartitions(storage: MemoryStorage, container: ElementTypeContainer, push: bool,
          ghost heap: map<Element, Props>)
    returns (raised: bool, ghost pass: Pass<Element>, ghost n: nat)
    requires PARTITION in storage.data && storage.data[PARTITION] == container && container.Pictured(heap)
    requires Lookable(container.Model(), Pass(heap, []))
    modifies storage`published, container, container.Elements()
    ensures Ended(old(container.Model()), pass, heap, n, push, raised)
    ensures IsAt(storage.data, storage.published, container, old(container.Model()), old(storage.published), pass)
  {
    ghost var c := container.Model();
    raised, pass, n := false, Pass(heap, []), 0;
    assert storage.published + [] == storage.published;
    for i := 0 to |container.keys|
      invariant HasRefreshed(storage.data, storage.published, container, c, old(storage.published), pass, heap, i, push)
      invariant container.Model() == c && n == i
    {
      NextIsKnown(storage, container, c, old(storage.published), pass, heap, i, push);
      if KEY !in container.items[container.keys[i]].props {
        raised := true;
        EndsAs(storage, container, c, old(storage.published), pass, heap, n, push, raised);
        return;
      }
      pass := RefreshKeyed(storage, container, i, push, c, old(storage.published), pass, heap);
      ModelNow(storage, container, c, old(storage.published), pass, heap, i + 1, push);
      n := n + 1;
    }
    EndsAs(storage, container, c, old(storage.published), pass, heap, n, push, raised);
  }

  /** RefreshPartitions leaves the other containers alone. */
  method RefreshBeside(storage: MemoryStorage, container: ElementTypeContainer, push: bool,
          ghost heap: map<Element, Props>, ghost others: Others)
    returns (raised: bool, ghost pass: Pass<Element>, ghost n: nat)
    requires PARTITION in storage.data && storage.data[PARTITION] == container && container.Pictured(heap)
    requires Lookable(container.Model(), Pass(heap, []))
    requires AsBefore(others) && ObjectsOf(others) !! storage.Concerned(PARTITION)
    modifies storage`published, container, container.Elements()
    ensures AsBefore(others)
    ensures Ended(old(container.Model()), pass, heap, n, push, raised)
    ensures IsAt(storage.data, storage.published, container, old(container.Model()), old(storage.published), pass)
  {
    raised, pass, n := RefreshPartitions(storage, container, push, heap);
  }

  // ---------- on a store that its log mirrors ----------

  /** Every element of the container can be looked up by its "key". */
  predicate AllLookable<E>(c: Container<E>, heap: map<E, Props>)
    requires Covers(c, heap)
  {
    forall k | k in c.items :: HasLookupKey(heap[c.items[k]])
  }

  lemma RefreshKeepsLookable<E>(c: Container<E>, pass: Pass<E>, e: E, push: bool)
    requires Covers(c, pass.heap) && AllLookable(c, pass.heap) && e in pass.heap
    ensures AllLookable(c, RefreshAt(pass, e, push).heap)
  {
    var p := pass.heap[e];
    PartitionChangeIsPlain(p);
    ApplyLeaves(PARTITION, Old(p, KEY), p, PartitionChange(p), push, KEY);
  }

  /** A refresh is one call of a run. */
  lemma RefreshIsStep<E>(st0: State<E>, st: State<E>, before: seq<Change>, pass: Pass<E>, k: Key, push: bool)
    requires Reached(st0, Outcome(st.(heap := pass.heap), before + pass.log, true))
    requires PARTITION in st.data && k in st.data[PARTITION].items && Covers(st.data[PARTITION], pass.heap)
    requires HasLookupKey(pass.heap[st.data[PARTITION].items[k]])
    ensures var next := RefreshAt(pass, st.data[PARTITION].items[k], push);
      Reached(st0, Outcome(st.(heap := next.heap), before + next.log, true))
  {
    var now := st.(heap := pass.heap);
    var e := st.data[PARTITION].items[k];
    var call := PartitionCall(pass.heap[e]);
    CallRefreshes(now, k, push, e);
    StepReached(st0, Outcome(now, before + pass.log, true), call, push, e);
    PublishedTwice(before, pass.log, Refreshed(pass.heap[e], push).log);
  }

  lemma {:induction false} RefreshReached<E>(st0: State<E>, st: State<E>, before: seq<Change>, pass: Pass<E>,
          keys: seq<Key>, push: bool)
    requires Reached(st0, Outcome(st.(heap := pass.heap), before + pass.log, true))
    requires PARTITION in st.data && Covers(st.data[PARTITION], pass.heap)
    requires AllLookable(st.data[PARTITION], pass.heap) && forall k | k in keys :: k in st.data[PARTITION].items
    ensures var after := RefreshAll(st.data[PARTITION], pass, keys, push);
      Reached(st0, Outcome(st.(heap := after.heap), before + after.log, true))
    decreases |keys|
  {
    if keys != [] {
      var e := st.data[PARTITION].items[keys[0]];
      RefreshIsStep(st0, st, before, pass, keys[0], push);
      RefreshKeepsLookable(st.data[PARTITION], pass, e, push);
      RefreshReached(st0, st, before, RefreshAt(pass, e, push), keys[1..], push);
    }
  }

  /** The refreshed partitions, seen as a change of the store. */
  lemma RefreshSettled(storage: MemoryStorage, container: ElementTypeContainer, before: seq<Change>,
          pass: Pass<Element>, n: nat, push: bool, st: State<Element>, others: Others)
    requires PARTITION in storage.data && storage.data[PARTITION] == container && Apart(storage.data)
    requires others.cs == storage.data - {PARTITION} && AsBefore(others)
    requires Planned(PARTITION, st, others, storage.since, before) && st.heap == storage.since.heap
    requires Ended(st.data[PARTITION], pass, st.heap, n, push, false)
    requires IsAt(storage.data, storage.published, container, st.data[PARTITION], before, pass)
    ensures storage.AlmostCalled(before, Outcome(st.(heap := pass.heap), pass.log, true))
  {
    var c, since := st.data[PARTITION], storage.since;
    assert c.keys[..n] == c.keys;
    assert before[since.mark..] + [] == before[since.mark..];
    RefreshReached(since.initial, st, before[since.mark..], Pass(st.heap, []), c.keys, push);
    OthersNotRefreshed(c, Pass(st.heap, []), push, others.heap);
    ChangedMirrored(storage.data, PARTITION, since, before, others.models, others.heap, c, pass.heap, pass.log);
    assert st.data == others.models[PARTITION := c];
  }

  lemma OthersNotRefreshed<E>(c: Container<E>, pass: Pass<E>, push: bool, rest: map<E, Props>)
    requires Agrees(c, pass.heap) && rest.Keys !! Containers.ElementsOf(c)
    requires forall x | x in rest :: x in pass.heap && rest[x] == pass.heap[x]
    ensures var after := RefreshAll(c, pass, c.keys, push);
      forall x | x in rest :: x in after.heap && after.heap[x] == rest[x]
  {
    OnceEachKey(c, pass.heap);
    forall x | x in rest
      ensures RefreshAll(c, pass, c.keys, push).heap[x] == rest[x]
    {
      EachIsRefreshed(c, pass, c.keys, push, x);
    }
  }

  /** What became of the store; `mirrored` says whether the log was mirroring it. */
  ghost predicate IsStored(storage: MemoryStorage, mirrored: bool, st: State<Element>, before: seq<Change>, was: Since,
          pass: Pass<Element>, raised: bool)
    reads storage, storage.data.Values, storage.since.heap.Keys
  {
    match mirrored
    case true => !raised && storage.IsCalled(before, was, Outcome(st.(heap := pass.heap), pass.log, true))
    case false => storage.since == was
  }

  /** In a good state every partition has a "key". */
  lemma NoneUnkeyed<E>(st: State<E>, n: nat)
    requires Good(st) && PARTITION in st.data && n < |st.data[PARTITION].keys|
    ensures Covers(st.data[PARTITION], st.heap) && KEY in st.heap[st.data[PARTITION].items[st.data[PARTITION].keys[n]]]
  {
    var k := st.data[PARTITION].keys[n];
    assert Has(st, PARTITION, k, st.data[PARTITION].items[k]);
  }

  /** The containers that the refresh leaves alone, as far as the log is mirroring them; c is the one of
      the partitions. */
  ghost predicate Ready(cs: ByName, since: Since, before: seq<Change>, mirrored: bool, c: Container<Element>,
          heap: map<Element, Props>, others: Others)
  {
    match mirrored
    case true =>
      && PARTITION in cs && Apart(cs) && others.cs == cs - {PARTITION} && heap == since.heap
      && Planned(PARTITION, State(others.models[PARTITION := c], heap), others, since, before)
    case false => others == Others(map[], map[], map[])
  }

  lemma GetReady(storage: MemoryStorage, mirrored: bool, heap: map<Element, Props>) returns (others: Others)
    requires PARTITION in storage.data && (mirrored ==> storage.Valid() && heap == storage.since.heap)
    ensures AsBefore(others) && ObjectsOf(others) !! storage.Concerned(PARTITION)
    ensures var c := storage.data[PARTITION].Model();
      && Ready(storage.data, storage.since, storage.published, mirrored, c, heap, others)
      && (mirrored ==> storage.Whole() == State(others.models[PARTITION := c], heap))
  {
    others := Others(map[], map[], map[]);
    if mirrored {
      storage.Prepare(PARTITION);
      others := storage.OthersOf(PARTITION);
      ModelsJoin(storage.data, PARTITION);
    }
  }

  /** The same, but for the picture of the elements. */
  ghost predicate AlmostStored(storage: MemoryStorage, mirrored: bool, st: State<Element>, before: seq<Change>,
          pass: Pass<Element>, raised: bool)
    reads storage, storage.data.Values, pass.heap.Keys
  {
    match mirrored
    case true => !raised && storage.AlmostCalled(before, Outcome(st.(heap := pass.heap), pass.log, true))
    case false => true
  }

  /** Everything but the picture of the elements is as the refresh leaves it. */
  lemma Settled(storage: MemoryStorage, container: ElementTypeContainer, c: Container<Element>,
          before: seq<Change>, pass: Pass<Element>, heap: map<Element, Props>, n: nat, push: bool, raised: bool,
          others: Others)
    requires PARTITION in storage.data && storage.data[PARTITION] == container
    requires Ready(storage.data, storage.since, before, true, c, heap, others) && AsBefore(others)
    requires Ended(c, pass, heap, n, push, raised)
    requires IsAt(storage.data, storage.published, container, c, before, pass)
    ensures AlmostStored(storage, true, State(others.models[PARTITION := c], heap), before, pass, raised)
  {
    var st := State(others.models[PARTITION := c], heap);
    if raised {
      NoneUnkeyed(st, n);
    }
    RefreshSettled(storage, container, before, pass, n, push, st, others);
  }

  lemma SettledIf(storage: MemoryStorage, container: ElementTypeContainer, c: Container<Element>,
          before: seq<Change>, pass: Pass<Element>, heap: map<Element, Props>, n: nat, push: bool, raised: bool,
          mirrored: bool, others: Others)
    requires PARTITION in storage.data && storage.data[PARTITION] == container
    requires Ready(storage.data, storage.since, before, mirrored, c, heap, others) && AsBefore(others)
    requires Ended(c, pass, heap, n, push, raised)
    requires IsAt(storage.data, storage.published, container, c, before, pass)
    ensures AlmostStored(storage, mirrored, State(others.models[PARTITION := c], heap), before, pass, raised)
  {
    if mirrored {
      Settled(storage, container, c, before, pass, heap, n, push, raised, others);
    }
  }

  method RefreshPrepared(storage: MemoryStorage, container: ElementTypeContainer, push: bool,
          ghost heap: map<Element, Props>, ghost mirrored: bool, ghost others: Others, ghost c: Container<Element>,
          ghost before: seq<Change>)
    returns (raised: bool, ghost pass: Pass<Element>, ghost n: nat)
    requires PARTITION in storage.data && storage.data[PARTITION] == container && container.Pictured(heap)
    requires container.Model() == c && storage.published == before && Lookable(c, Pass(heap, []))
    requires AsBefore(others) && ObjectsOf(others) !! storage.Concerned(PARTITION)
    requires Ready(storage.data, storage.since, before, mirrored, c, heap, others)
    modifies storage`published, container, container.Elements()
    ensures Ended(c, pass, heap, n, push, raised)
    ensures IsAt(storage.data, storage.published, container, c, before, pass)
    ensures AlmostStored(storage, mirrored, State(others.models[PARTITION := c], heap), before, pass, raised)
    ensures unchanged(storage`data)
  {
    raised, pass, n := RefreshBeside(storage, container, push, heap, others);
    SettledIf(storage, container, c, before, pass, heap, n, push, raised, mirrored, others);
  }

  ghost method Repicture(storage: MemoryStorage, mirrored: bool, st: State<Element>, before: seq<Change>,
          pass: Pass<Element>, raised: bool)
    requires AlmostStored(storage, mirrored, st, before, pass, raised)
    requires mirrored ==> pass.heap.Keys == storage.since.heap.Keys
    modifies storage`since
    ensures IsStored(storage, mirrored, st, before, old(storage.since), pass, raised)
    ensures storage.Repr() == old(storage.Repr())
  {
    if mirrored {
      storage.Repicture(before, Outcome(st.(heap := pass.heap), pass.log, true));
    }
  }

  /** The picture does not matter to the refreshed partitions. */
  ghost method RepictureAt(storage: MemoryStorage, container: ElementTypeContainer, c: Container<Element>,
          mirrored: bool, st: State<Element>, before: seq<Change>, pass: Pass<Element>, raised: bool)
    requires IsAt(storage.data, storage.published, container, c, before, pass)
    requires AlmostStored(storage, mirrored, st, before, pass, raised)
    requires mirrored ==> pass.heap.Keys == storage.since.heap.Keys
    modifies storage`since
    ensures IsAt(storage.data, storage.published, container, c, before, pass)
    ensures IsStored(storage, mirrored, st, before, old(storage.since), pass, raised)
    ensures storage.Repr() == old(storage.Repr())
  {
    Repicture(storage, mirrored, st, before, pass, raised);
  }

  /** The loop, once the container is there. */
  method RefreshThere(storage: MemoryStorage, container: ElementTypeContainer, push: bool,
          ghost heap: map<Element, Props>, ghost mirrored: bool, ghost others: Others, ghost c: Container<Element>,
          ghost before: seq<Change>)
    returns (raised: bool, ghost pass: Pass<Element>, ghost n: nat)
    requires PARTITION in storage.data && storage.data[PARTITION] == container && container.Pictured(heap)
    requires container.Model() == c && storage.published == before && Lookable(c, Pass(heap, []))
    requires AsBefore(others) && ObjectsOf(others) !! storage.Concerned(PARTITION)
    requires Ready(storage.data, storage.since, before, mirrored, c, heap, others)
    modifies storage`published, storage`since, container, container.Elements()
    ensures Ended(c, pass, heap, n, push, raised)
    ensures IsAt(storage.data, storage.published, container, c, before, pass)
    ensures IsStored(storage, mirrored, State(others.models[PARTITION := c], heap), before, old(storage.since), pass,
                     raised)
    ensures unchanged(storage`data)
    ensures storage.Repr() == old(storage.Repr())
  {
    raised, pass, n := RefreshPrepared(storage, container, push, heap, mirrored, others, c, before);
    ghost var st := State(others.models[PARTITION := c], heap);
    RepictureAt(storage, container, c, mirrored, st, before, pass, raised);
  }

  /** `_update_partition_states` on the store. A missing container of partitions is created; the
      partitions are refreshed in order, all of them unless one without "key" makes it raise KeyError.
      No other container is touched, and a store that its log mirrors stays one. */
  method UpdatePartitionStates(storage: MemoryStorage, push: bool, ghost heap: map<Element, Props>)
    returns (raised: bool, ghost pass: Pass<Element>, ghost n: nat)
    requires PARTITION in storage.data ==> storage.data[PARTITION].Pictured(heap)
    requires Lookable(storage.ModelOf(PARTITION), Pass(heap, []))
    modifies storage, if PARTITION in storage.data then {storage.data[PARTITION]} else {}
    modifies if PARTITION in storage.data then storage.data[PARTITION].Elements() else {}
    ensures PARTITION in storage.data
    ensures if PARTITION in old(storage.data) then storage.data == old(storage.data)
            else fresh(storage.data[PARTITION])
                 && storage.data == old(storage.data)[PARTITION := storage.data[PARTITION]]
    ensures forall x | x in storage.Repr() :: x in old(storage.Repr()) || fresh(x)
    ensures var c := old(storage.ModelOf(PARTITION));
      && KeyedUpTo(c, heap, n) && raised == (n < |c.keys|)
      && (raised ==> KEY !in heap[c.items[c.keys[n]]])
      && pass == RefreshAll(c, Pass(heap, []), c.keys[..n], push)
      && IsAt(storage.data, storage.published, storage.data[PARTITION], c, old(storage.published), pass)
    ensures IsStored(storage, old(storage.Valid()) && heap == old(storage.since).heap,
                     WithContainer(old(storage.Whole()), PARTITION), old(storage.published), old(storage.since),
                     pass, raised)
  {
    ghost var mirrored := storage.Valid() && heap == storage.since.heap;
    var container := storage.ContainerFor(PARTITION, heap);
    ghost var others := GetReady(storage, mirrored, heap);
    raised, pass, n := RefreshThere(storage, container, push, heap, mirrored, others, container.Model(),
                                          storage.published);
  }
}
