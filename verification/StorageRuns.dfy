/** Runs of `update_container_object` over all containers of the store, on values: the published log
    mirrors the store. */
module StorageRuns {
  import opened Wrappers
  import opened DeepMerge
  import opened Containers
  import opened Storage

  /** The containers by name, and the properties of all elements. */
  datatype State<E> = State(data: map<string, Container<E>>, heap: map<E, Props>)

  datatype Call = Call(container: string, key: Key, updates: Updates)

  datatype Outcome<E> = Outcome(state: State<E>, log: seq<Change>, ok: bool)

  function EmptyContainer<E>(): Container<E> {
    Container([], map[], map[])
  }

  /** `get_container`, of a defaultdict. */
  function ContainerOf<E>(st: State<E>, t: string): Container<E> {
    if t in st.data then st.data[t] else EmptyContainer()
  }

  function KeyData(k: Key): Data {
    Leaf(match k case Id(n) => Number(n) case Text(s) => String(s))
  }

  predicate CoversAll<E>(st: State<E>) {
    forall t | t in st.data :: Covers(st.data[t], st.heap)
  }

  /** `get_container_object` with create_if_missing; a new element is `spare`. */
  function GetObject<E>(st: State<E>, t: string, key: Key, spare: E): (r: (State<E>, E))
    requires CoversAll(st)
    ensures r.1 in r.0.heap
  {
    var c := ContainerOf(st, t);
    match GetItem(c, key)
    case Some(e) => (st.(data := st.data[t := c]), e)
    case None =>
      var p: Props := map[KEY := KeyData(key)];
      (State(st.data[t := SetItem(c, key, spare, TextKey(p))], st.heap[spare := p]), spare)
  }

  /** `update_container_object` once it has the element; the flag is false where it raises KeyError, on
      an element without "key". */
  function UpdateFound<E>(st: State<E>, e: E, call: Call, push: bool): Outcome<E>
    requires e in st.heap
  {
    var p := st.heap[e];
    if KEY !in p then Outcome(st, [], false)
    else
      var effect := Apply(call.container, p[KEY], p, call.updates, push);
      Outcome(st.(heap := st.heap[e := effect.props]), effect.log, true)
  }

  /** `update_container_object` */
  function UpdateObject<E>(st: State<E>, call: Call, push: bool, spare: E): Outcome<E>
    requires CoversAll(st)
  {
    if call.updates == [] then Outcome(st, [], true)
    else
      var (got, e) := GetObject(st, call.container, call.key, spare);
      UpdateFound(got, e, call, push)
  }

  /** The same for any state. */
  function CallOn<E>(st: State<E>, call: Call, push: bool, spare: E): Outcome<E> {
    if CoversAll(st) then UpdateObject(st, call, push, spare) else Outcome(st, [], false)
  }

  // ---------- good states ----------

  /** The index of every container is right. */
  ghost predicate AllAgree<E>(st: State<E>) {
    forall t {:trigger Agrees(st.data[t], st.heap)} | t in st.data :: Agrees(st.data[t], st.heap)
  }

  /** e is stored in container t under k. */
  predicate Has<E(==)>(st: State<E>, t: string, k: Key, older e: E) {
    t in st.data && k in st.data[t].items && st.data[t].items[k] == e
  }

  /** Every element has a text key. */
  ghost predicate AllKeyed<E>(st: State<E>) {
    forall t, k, e | Has(st, t, k, e) :: e in st.heap && TextKey(st.heap[e]).Some?
  }

  /** No element is in two containers. */
  ghost predicate NoneShared<E>(st: State<E>) {
    forall t, u, j, k, e | Has(st, t, j, e) && Has(st, u, k, e) :: t == u
  }

  ghost predicate Good<E>(st: State<E>) {
    CoversAll(st) && AllAgree(st) && AllKeyed(st) && NoneShared(st)
  }

  /** If an element has to be created, its text key is no number. */
  predicate Creatable<E>(st: State<E>, t: string, key: Key) {
    GetItem(ContainerOf(st, t), key).None? ==> Transform(key) == key
  }

  /** And `spare` is a new one. */
  predicate CanGet<E(==)>(st: State<E>, t: string, key: Key, spare: E) {
    Creatable(st, t, key) && (GetItem(ContainerOf(st, t), key).None? ==> spare !in st.heap)
  }

  /** The call leaves the key property alone, and does not create an element whose text key is a number. */
  predicate Decent<E>(st: State<E>, call: Call) {
    && (forall i | 0 <= i < |call.updates| :: call.updates[i].0 != KEY)
    && Creatable(st, call.container, call.key)
  }

  predicate Proper<E(==)>(st: State<E>, call: Call, spare: E) {
    Decent(st, call) && CanGet(st, call.container, call.key, spare)
  }

  lemma NewFits<E>(c: Container<E>, heap: map<E, Props>, key: Key, spare: E, p: Props)
    requires Agrees(c, heap) && spare !in heap && p == map[KEY := KeyData(key)]
    requires GetItem(c, key).None? && Transform(key) == key
    ensures Covers(c, heap[spare := p]) && Agrees(c, heap[spare := p]) && Fits(c, heap[spare := p], key, spare)
  {
    AgreesSameTexts(c, heap, heap[spare := p]);
    assert TextKey(p).value !in c.index;
    assert forall j | j in c.items && TextKey(heap[c.items[j]]).Some? :: TextKey(heap[c.items[j]]).value in c.index;
  }

  /** A new element is stored, and everything else is as it was. */
  ghost predicate Adds<E>(st: State<E>, st2: State<E>, t: string, key: Key, spare: E, p: Props) {
    && spare !in st.heap && st2.heap == st.heap[spare := p] && TextKey(p).Some?
    && (forall u, k, e | Has(st2, u, k, e) :: Has(st, u, k, e) || (u == t && k == key && e == spare))
  }

  lemma AddsKept<E>(st: State<E>, st2: State<E>, t: string, key: Key, spare: E, p: Props)
    requires AllKeyed(st) && NoneShared(st) && Adds(st, st2, t, key, spare, p)
    ensures AllKeyed(st2) && NoneShared(st2)
  {}

  lemma NewAdds<E>(st: State<E>, t: string, key: Key, spare: E)
    requires CoversAll(st) && spare !in st.heap && GetItem(ContainerOf(st, t), key).None? && Transform(key) == key
    ensures Adds(st, GetObject(st, t, key, spare).0, t, key, spare, map[KEY := KeyData(key)])
  {}

  lemma NewAgrees<E>(st: State<E>, t: string, key: Key, spare: E)
    requires Good(st) && spare !in st.heap && GetItem(ContainerOf(st, t), key).None? && Transform(key) == key
    ensures AllAgree(GetObject(st, t, key, spare).0)
  {
    var c := ContainerOf(st, t);
    var p: Props := map[KEY := KeyData(key)];
    var heap2 := st.heap[spare := p];
    assert Agrees(EmptyContainer<E>(), st.heap);
    NewFits(c, st.heap, key, spare, p);
    SetItemAgrees(c, heap2, key, spare);
    AllAgreeAfter(st, State(st.data[t := SetItem(c, key, spare, TextKey(p))], heap2), t);
  }

  /** If one container is replaced, and the elements of the others keep their text keys, it is the one to check. */
  lemma AllAgreeAfter<E>(st: State<E>, st2: State<E>, t: string)
    requires CoversAll(st) && AllAgree(st) && t in st2.data && Agrees(st2.data[t], st2.heap)
    requires forall u | u in st2.data && u != t :: u in st.data && st2.data[u] == st.data[u]
    requires forall e | e in st.heap :: e in st2.heap && TextKey(st2.heap[e]) == TextKey(st.heap[e])
    ensures AllAgree(st2)
  {
    forall u | u in st2.data && u != t
      ensures Agrees(st2.data[u], st2.heap)
    {
      AgreesSameTexts(st.data[u], st.heap, st2.heap);
    }
  }

  lemma FoundUnchanged<E>(st: State<E>, t: string, key: Key, spare: E)
    requires CoversAll(st) && GetItem(ContainerOf(st, t), key).Some?
    ensures t in st.data && GetObject(st, t, key, spare) == (st, GetItem(ContainerOf(st, t), key).value)
  {
    assert st.data[t := st.data[t]] == st.data;
  }

  lemma GetObjectGood<E>(st: State<E>, t: string, key: Key, spare: E)
    requires Good(st) && CanGet(st, t, key, spare)
    ensures Good(GetObject(st, t, key, spare).0)
  {
    if GetItem(ContainerOf(st, t), key).None? {
      NewAgrees(st, t, key, spare);
      NewAdds(st, t, key, spare);
      AddsKept(st, GetObject(st, t, key, spare).0, t, key, spare, map[KEY := KeyData(key)]);
    } else {
      FoundUnchanged(st, t, key, spare);
    }
  }

  // ---------- what one call does ----------

  /** e has this place, and is what `get_container_object` returns for the call. */
  lemma ObjectHasPlace<E>(st: State<E>, t: string, key: Key, spare: E)
    requires Good(st) && CanGet(st, t, key, spare)
    ensures exists k :: Has(GetObject(st, t, key, spare).0, t, k, GetObject(st, t, key, spare).1)
  {
    var c := ContainerOf(st, t);
    if GetItem(c, key).None? {
      assert Has(GetObject(st, t, key, spare).0, t, key, spare);
    } else {
      FoundUnchanged(st, t, key, spare);
      var e := GetItem(c, key).value;
      assert Agrees(c, st.heap);
      var k :| k in c.items && c.items[k] == e;
      assert Has(st, t, k, e);
    }
  }

  lemma ChangeAgrees<E>(c: Container<E>, heap: map<E, Props>, e: E, p: Props)
    requires Agrees(c, heap) && e in heap && TextKey(p) == TextKey(heap[e])
    ensures Agrees(c, heap[e := p])
  {
    AgreesSameTexts(c, heap, heap[e := p]);
  }

  /** Changing an element's properties other than its text key keeps the state good. */
  lemma ChangeGood<E>(st: State<E>, e: E, p: Props)
    requires Good(st) && e in st.heap && TextKey(p) == TextKey(st.heap[e])
    ensures Good(st.(heap := st.heap[e := p]))
  {
    var st2 := st.(heap := st.heap[e := p]);
    assert CoversAll(st2);
    forall t | t in st2.data
      ensures Agrees(st2.data[t], st2.heap)
    {
      assert Agrees(st.data[t], st.heap);
      ChangeAgrees(st.data[t], st.heap, e, p);
    }
    assert forall t, k, e | Has(st2, t, k, e) :: Has(st, t, k, e);
  }

  lemma UpdateObjectGood<E>(st: State<E>, call: Call, push: bool, spare: E)
    requires Good(st) && Proper(st, call, spare)
    ensures Good(UpdateObject(st, call, push, spare).state) && UpdateObject(st, call, push, spare).ok
  {
    if call.updates != [] {
      GetObjectGood(st, call.container, call.key, spare);
      ObjectHasPlace(st, call.container, call.key, spare);
      var (got, e) := GetObject(st, call.container, call.key, spare);
      var p := got.heap[e];
      ApplyLeaves(call.container, p[KEY], p, call.updates, push, KEY);
      ChangeGood(got, e, Apply(call.container, p[KEY], p, call.updates, push).props);
    }
  }

  /** Places are kept, new places have new elements, and key properties do not change. */
  ghost predicate Grows<E>(st: State<E>, st2: State<E>) {
    && (forall t, k, e | Has(st, t, k, e) :: Has(st2, t, k, e))
    && (forall t, k, e | Has(st2, t, k, e) :: Has(st, t, k, e) || e !in st.heap)
    && (forall e | e in st.heap :: e in st2.heap && Old(st2.heap[e], KEY) == Old(st.heap[e], KEY))
  }

  lemma GrowsFurther<E>(st: State<E>, st2: State<E>, st3: State<E>)
    requires Grows(st, st2) && Grows(st2, st3)
    ensures Grows(st, st3)
  {}

  lemma GetObjectGrows<E>(st: State<E>, t: string, key: Key, spare: E)
    requires Good(st) && CanGet(st, t, key, spare)
    ensures Grows(st, GetObject(st, t, key, spare).0)
  {
    if GetItem(ContainerOf(st, t), key).None? {
      NewAdds(st, t, key, spare);
      KeepsPlaces(st, t, key, spare);
    } else {
      FoundUnchanged(st, t, key, spare);
    }
  }

  lemma KeepsPlaces<E>(st: State<E>, t: string, key: Key, spare: E)
    requires CoversAll(st) && GetItem(ContainerOf(st, t), key).None? && Transform(key) == key
    ensures forall u, k, e | Has(st, u, k, e) :: Has(GetObject(st, t, key, spare).0, u, k, e)
  {}

  lemma ChangeGrows<E>(st: State<E>, e: E, p: Props)
    requires e in st.heap && Old(p, KEY) == Old(st.heap[e], KEY)
    ensures Grows(st, st.(heap := st.heap[e := p]))
  {
    var st2 := st.(heap := st.heap[e := p]);
    assert forall t, k, x | Has(st2, t, k, x) :: Has(st, t, k, x);
    assert forall t, k, x | Has(st, t, k, x) :: Has(st2, t, k, x);
  }

  lemma UpdateObjectGrows<E>(st: State<E>, call: Call, push: bool, spare: E)
    requires Good(st) && Proper(st, call, spare)
    ensures Grows(st, UpdateObject(st, call, push, spare).state)
  {
    if call.updates != [] {
      GetObjectGrows(st, call.container, call.key, spare);
      var (got, e) := GetObject(st, call.container, call.key, spare);
      var p := got.heap[e];
      if KEY in p {
        ApplyLeaves(call.container, p[KEY], p, call.updates, push, KEY);
        ChangeGrows(got, e, Apply(call.container, p[KEY], p, call.updates, push).props);
        GrowsFurther(st, got, UpdateObject(st, call, push, spare).state);
      }
    }
  }

  // ---------- the log mirrors the store ----------

  /** An element's properties in an earlier state; those it is created with, if it is newer. */
  function Base<E>(heap: map<E, Props>, e: E, p: Props): Props {
    if e in heap then heap[e] else map[KEY := Old(p, KEY)]
  }

  /** For every element, the log tells what became of its properties between the two states. */
  ghost predicate LogMirrors<E>(st: State<E>, st2: State<E>, log: seq<Change>) {
    forall t, k, e | Has(st2, t, k, e) ::
      e in st2.heap && Mirrors(Base(st.heap, e, st2.heap[e]), st2.heap[e], log, t, Old(st2.heap[e], KEY))
  }

  /** Everything the log has is about one object. */
  predicate OnlyAbout(log: seq<Change>, container: string, objectKey: Data) {
    forall i | 0 <= i < |log| :: log[i].container == container && log[i].objectKey == objectKey
  }

  lemma {:induction false} ApplyIsAbout(container: string, objectKey: Data, p: Props, updates: Updates, push: bool)
    ensures OnlyAbout(Apply(container, objectKey, p, updates, push).log, container, objectKey)
    decreases |updates|
  {
    if updates != [] {
      var first := ApplyOne(container, objectKey, p, updates[0].0, updates[0].1, push);
      ApplyIsAbout(container, objectKey, first.props, updates[1..], push);
    }
  }

  lemma {:induction false} NotReplayed(log: seq<Change>, container: string, objectKey: Data, property: string)
    requires forall i | 0 <= i < |log| :: !About(log[i], container, objectKey, property)
    ensures Replayed(log, container, objectKey, property) == None
    decreases |log|
  {
    if log != [] {
      NotReplayed(log[..|log| - 1], container, objectKey, property);
    }
  }

  lemma {:induction false} TriviallyChained(log: seq<Change>, container: string, objectKey: Data,
          property: string, start: Data)
    requires forall i | 0 <= i < |log| :: !About(log[i], container, objectKey, property)
    ensures Chained(log, container, objectKey, property, start)
    decreases |log|
  {
    if log != [] {
      assert forall i | 0 <= i < |log[1..]| :: log[1..][i] == log[i + 1];
      TriviallyChained(log[1..], container, objectKey, property, start);
    }
  }

  /** A log about another object says that nothing changed. */
  lemma ForeignLogMirrors(p: Props, log: seq<Change>, t: string, x: Data, container: string, objectKey: Data)
    requires OnlyAbout(log, container, objectKey) && (t != container || x != objectKey)
    ensures Mirrors(p, p, log, t, x)
  {
    forall property
      ensures Replayed(log, t, x, property) == None && Chained(log, t, x, property, OrNil(PropertyOf(p, property)))
    {
      NotReplayed(log, t, x, property);
      TriviallyChained(log, t, x, property, OrNil(PropertyOf(p, property)));
    }
  }

  /** In one container, the key property tells elements apart. */
  lemma KeysApart<E>(st: State<E>, t: string, j: Key, d: E, k: Key, e: E)
    requires Good(st) && Has(st, t, j, d) && Has(st, t, k, e) && d != e
    ensures d in st.heap && e in st.heap && Old(st.heap[d], KEY) != Old(st.heap[e], KEY)
  {
    assert Agrees(st.data[t], st.heap);
  }

  /** `got` differs from `st` at most by a newly created element. */
  ghost predicate Created<E>(st: State<E>, got: State<E>) {
    forall e | e in got.heap :: Base(st.heap, e, got.heap[e]) == got.heap[e]
  }

  lemma GetObjectCreates<E>(st: State<E>, t: string, key: Key, spare: E)
    requires CoversAll(st) && CanGet(st, t, key, spare)
    ensures Created(st, GetObject(st, t, key, spare).0)
  {
    var p: Props := map[KEY := KeyData(key)];
    assert map[KEY := Old(p, KEY)] == p;
  }

  lemma ChangedMirrors(p: Props, container: string, updates: Updates, push: bool)
    requires forall i | 0 <= i < |updates| :: updates[i].0 != KEY
    ensures var a := Apply(container, Old(p, KEY), p, updates, push);
      Old(a.props, KEY) == Old(p, KEY) && Mirrors(p, a.props, a.log, container, Old(a.props, KEY))
  {
    ApplyLeaves(container, Old(p, KEY), p, updates, push, KEY);
    ApplyMirrors(container, Old(p, KEY), p, updates, push);
  }

  lemma OthersMirror<E>(got: State<E>, e: E, container: string, k0: Key, updates: Updates, push: bool,
          t: string, k: Key, x: E)
    requires Good(got) && Has(got, container, k0, e) && Has(got, t, k, x) && x != e
    ensures e in got.heap && x in got.heap
    ensures var p := got.heap[e];
      Mirrors(got.heap[x], got.heap[x], Apply(container, Old(p, KEY), p, updates, push).log, t, Old(got.heap[x], KEY))
  {
    var p := got.heap[e];
    if t == container {
      KeysApart(got, t, k, x, k0, e);
    }
    ApplyIsAbout(container, Old(p, KEY), p, updates, push);
    var log := Apply(container, Old(p, KEY), p, updates, push).log;
    ForeignLogMirrors(got.heap[x], log, t, Old(got.heap[x], KEY), container, Old(p, KEY));
  }

  lemma ChangeMirrors<E>(st: State<E>, got: State<E>, e: E, container: string, k0: Key, updates: Updates,
          push: bool, a: Effect)
    requires Good(got) && Created(st, got) && Has(got, container, k0, e) && e in got.heap
    requires forall i | 0 <= i < |updates| :: updates[i].0 != KEY
    requires a == Apply(container, Old(got.heap[e], KEY), got.heap[e], updates, push)
    ensures LogMirrors(st, got.(heap := got.heap[e := a.props]), a.log)
  {
    var st2 := got.(heap := got.heap[e := a.props]);
    ChangedMirrors(got.heap[e], container, updates, push);
    forall t, k, x | Has(st2, t, k, x)
      ensures x in st2.heap && Mirrors(Base(st.heap, x, st2.heap[x]), st2.heap[x], a.log, t, Old(st2.heap[x], KEY))
    {
      assert Has(got, t, k, x);
      if x != e {
        OthersMirror(got, e, container, k0, updates, push, t, k, x);
      }
    }
  }

  lemma NothingMirrors<E>(st: State<E>)
    requires Good(st)
    ensures LogMirrors(st, st, [])
  {
    forall t, k, e | Has(st, t, k, e)
      ensures e in st.heap && Mirrors(st.heap[e], st.heap[e], [], t, Old(st.heap[e], KEY))
    {}
  }

  /** What one call publishes mirrors what it does to the whole store. */
  lemma UpdateObjectMirrors<E>(st: State<E>, call: Call, push: bool, spare: E)
    requires Good(st) && Proper(st, call, spare)
    ensures var o := UpdateObject(st, call, push, spare); LogMirrors(st, o.state, o.log)
  {
    if call.updates == [] {
      NothingMirrors(st);
    } else {
      var (got, e) := GetObject(st, call.container, call.key, spare);
      GetObjectGood(st, call.container, call.key, spare);
      GetObjectCreates(st, call.container, call.key, spare);
      ObjectHasPlace(st, call.container, call.key, spare);
      var k0 :| Has(got, call.container, k0, e);
      var a := Apply(call.container, Old(got.heap[e], KEY), got.heap[e], call.updates, push);
      ChangeMirrors(st, got, e, call.container, k0, call.updates, push, a);
    }
  }

  // ---------- runs ----------

  lemma GetObjectCovers<E>(st: State<E>, t: string, key: Key, spare: E)
    requires CoversAll(st)
    ensures CoversAll(GetObject(st, t, key, spare).0)
  {
    TransformTwice(key);
  }

  lemma ChangeCovers<E>(st: State<E>, e: E, p: Props)
    requires CoversAll(st) && e in st.heap
    ensures CoversAll(st.(heap := st.heap[e := p]))
  {}

  lemma UpdateObjectCovers<E>(st: State<E>, call: Call, push: bool, spare: E)
    requires CoversAll(st)
    ensures CoversAll(UpdateObject(st, call, push, spare).state)
  {
    var (got, e) := GetObject(st, call.container, call.key, spare);
    GetObjectCovers(st, call.container, call.key, spare);
    var p := got.heap[e];
    ChangeCovers(got, e, Apply(call.container, Old(p, KEY), p, call.updates, push).props);
  }

  /** One more call after what came before. */
  function Then<E>(o: Outcome<E>, call: Call, push: bool, spare: E): (r: Outcome<E>)
    requires CoversAll(o.state)
    ensures CoversAll(r.state)
  {
    UpdateObjectCovers(o.state, call, push, spare);
    var next := UpdateObject(o.state, call, push, spare);
    Outcome(next.state, o.log + next.log, o.ok && next.ok)
  }

  /** A run: calls one after the other, each with an element it may create. */
  function Run<E>(o: Outcome<E>, calls: seq<Call>, spares: seq<E>, push: bool): Outcome<E>
    requires CoversAll(o.state) && |spares| == |calls|
    decreases |calls|
  {
    if calls == [] then o else Run(Then(o, calls[0], push, spares[0]), calls[1..], spares[1..], push)
  }

  /** Every call of the run is proper when it comes, and creates a new element if it creates one. */
  predicate ProperRun<E>(o: Outcome<E>, calls: seq<Call>, spares: seq<E>, push: bool)
    requires CoversAll(o.state) && |spares| == |calls|
    decreases |calls|
  {
    calls == [] ||
    (Proper(o.state, calls[0], spares[0])
     && ProperRun(Then(o, calls[0], push, spares[0]), calls[1..], spares[1..], push))
  }

  /** An element of container t with this key property. */
  predicate Named<E>(st: State<E>, t: string, k: Key, objectKey: Data) {
    && t in st.data && k in st.data[t].items && st.data[t].items[k] in st.heap
    && Old(st.heap[st.data[t].items[k]], KEY) == objectKey
  }

  ghost predicate IsNamed<E>(st: State<E>, ch: Change) {
    exists k :: Named(st, ch.container, k, ch.objectKey)
  }

  /** The log speaks of elements that are stored. */
  ghost predicate AllNamed<E>(st: State<E>, log: seq<Change>) {
    forall i | 0 <= i < |log| :: IsNamed(st, log[i])
  }

  lemma NamedFurther<E>(st: State<E>, st2: State<E>, log: seq<Change>)
    requires Grows(st, st2) && AllNamed(st, log)
    ensures AllNamed(st2, log)
  {
    forall i | 0 <= i < |log|
      ensures IsNamed(st2, log[i])
    {
      assert IsNamed(st, log[i]);
      var k :| Named(st, log[i].container, k, log[i].objectKey);
      assert Has(st, log[i].container, k, st.data[log[i].container].items[k]);
      assert Has(st2, log[i].container, k, st.data[log[i].container].items[k]);
      assert Named(st2, log[i].container, k, log[i].objectKey);
    }
  }

  lemma NamesOne<E>(st: State<E>, k: Key, log: seq<Change>, t: string, objectKey: Data)
    requires Named(st, t, k, objectKey) && OnlyAbout(log, t, objectKey)
    ensures AllNamed(st, log)
  {
    forall i | 0 <= i < |log|
      ensures IsNamed(st, log[i])
    {
      assert Named(st, log[i].container, k, log[i].objectKey);
    }
  }

  lemma UpdateObjectNames<E>(st: State<E>, call: Call, push: bool, spare: E)
    requires Good(st) && Proper(st, call, spare)
    ensures var o := UpdateObject(st, call, push, spare); AllNamed(o.state, o.log)
  {
    if call.updates != [] {
      ObjectHasPlace(st, call.container, call.key, spare);
      var (got, e) := GetObject(st, call.container, call.key, spare);
      var k :| Has(got, call.container, k, e);
      var p := got.heap[e];
      if KEY in p {
        ApplyLeaves(call.container, p[KEY], p, call.updates, push, KEY);
        ApplyIsAbout(call.container, p[KEY], p, call.updates, push);
        var o := UpdateObject(st, call, push, spare);
        NamesOne(o.state, k, o.log, call.container, p[KEY]);
      }
    }
  }

  /** A log that speaks of stored elements does not mention one that is stored later. */
  lemma NotYetMentioned<E>(st: State<E>, st2: State<E>, log: seq<Change>, t: string, k: Key, e: E)
    requires Grows(st, st2) && Good(st2) && AllNamed(st, log) && Has(st2, t, k, e) && e !in st.heap
    ensures e in st2.heap
    ensures forall i | 0 <= i < |log| :: log[i].container != t || log[i].objectKey != Old(st2.heap[e], KEY)
  {
    forall i | 0 <= i < |log| && log[i].container == t
      ensures log[i].objectKey != Old(st2.heap[e], KEY)
    {
      assert IsNamed(st, log[i]);
      var j :| Named(st, t, j, log[i].objectKey);
      var d := st.data[t].items[j];
      assert Has(st, t, j, d);
      KeysApart(st2, t, j, d, k, e);
    }
  }

  lemma UnmentionedMirrors(p: Props, log: seq<Change>, t: string, x: Data)
    requires forall i | 0 <= i < |log| :: log[i].container != t || log[i].objectKey != x
    ensures Mirrors(p, p, log, t, x)
  {
    forall property
      ensures Replayed(log, t, x, property) == None && Chained(log, t, x, property, OrNil(PropertyOf(p, property)))
    {
      NotReplayed(log, t, x, property);
      TriviallyChained(log, t, x, property, OrNil(PropertyOf(p, property)));
    }
  }

  lemma LogMirrorsThen<E>(st: State<E>, st2: State<E>, st3: State<E>, xs: seq<Change>, ys: seq<Change>)
    requires Grows(st, st2) && Grows(st2, st3) && Good(st2) && Good(st3)
    requires LogMirrors(st, st2, xs) && AllNamed(st2, xs) && LogMirrors(st2, st3, ys)
    ensures LogMirrors(st, st3, xs + ys)
  {
    forall t, k, e | Has(st3, t, k, e)
      ensures e in st3.heap && Mirrors(Base(st.heap, e, st3.heap[e]), st3.heap[e], xs + ys, t, Old(st3.heap[e], KEY))
    {
      var p := st3.heap[e];
      var x := Old(p, KEY);
      if Has(st2, t, k, e) {
        MirrorsThen(Base(st.heap, e, st2.heap[e]), st2.heap[e], p, xs, ys, t, x);
      } else {
        NotYetMentioned(st2, st3, xs, t, k, e);
        UnmentionedMirrors(Base(st.heap, e, p), xs, t, x);
        MirrorsThen(Base(st.heap, e, p), Base(st.heap, e, p), p, xs, ys, t, x);
      }
    }
  }

  /** What holds of everything reached from st0. */
  ghost predicate Reached<E>(st0: State<E>, o: Outcome<E>) {
    match o
    case Outcome(st, log, ok) => ok && Good(st) && Grows(st0, st) && AllNamed(st, log) && LogMirrors(st0, st, log)
  }

  lemma StepReached<E>(st0: State<E>, o: Outcome<E>, call: Call, push: bool, spare: E)
    requires Reached(st0, o) && Proper(o.state, call, spare)
    ensures Reached(st0, Then(o, call, push, spare))
  {
    var next := UpdateObject(o.state, call, push, spare);
    UpdateObjectGood(o.state, call, push, spare);
    UpdateObjectGrows(o.state, call, push, spare);
    UpdateObjectMirrors(o.state, call, push, spare);
    UpdateObjectNames(o.state, call, push, spare);
    GrowsFurther(st0, o.state, next.state);
    NamedFurther(o.state, next.state, o.log);
    LogMirrorsThen(st0, o.state, next.state, o.log, next.log);
  }

  lemma {:induction false} RunReached<E>(st0: State<E>, o: Outcome<E>, calls: seq<Call>, spares: seq<E>, push: bool)
    requires CoversAll(o.state) && |spares| == |calls| && ProperRun(o, calls, spares, push)
    requires Reached(st0, o)
    ensures Reached(st0, Run(o, calls, spares, push))
    decreases |calls|
  {
    if calls != [] {
      StepReached(st0, o, calls[0], push, spares[0]);
      RunReached(st0, Then(o, calls[0], push, spares[0]), calls[1..], spares[1..], push);
    }
  }

  lemma StartReached<E>(st: State<E>)
    requires Good(st)
    ensures Reached(st, Outcome(st, [], true))
  {
    NothingMirrors(st);
  }

  /** Getting an element, new or not, publishes nothing. */
  lemma GetReached<E>(st0: State<E>, o: Outcome<E>, t: string, key: Key, spare: E)
    requires Reached(st0, o) && CanGet(o.state, t, key, spare)
    ensures Reached(st0, Outcome(GetObject(o.state, t, key, spare).0, o.log, true))
  {
    var got := GetObject(o.state, t, key, spare).0;
    GetObjectGood(o.state, t, key, spare);
    GetObjectGrows(o.state, t, key, spare);
    GetObjectCreates(o.state, t, key, spare);
    SilentReached(st0, o, got);
  }

  lemma SilentReached<E>(st0: State<E>, o: Outcome<E>, got: State<E>)
    requires Reached(st0, o) && Good(got) && Grows(o.state, got) && Created(o.state, got)
    ensures Reached(st0, Outcome(got, o.log, true))
  {
    forall t, k, e | Has(got, t, k, e)
      ensures e in got.heap && Mirrors(got.heap[e], got.heap[e], [], t, Old(got.heap[e], KEY))
    {}
    GrowsFurther(st0, o.state, got);
    NamedFurther(o.state, got, o.log);
    LogMirrorsThen(st0, o.state, got, o.log, []);
    assert o.log + [] == o.log;
  }

  function WithEmpty<E>(st: State<E>, t: string): State<E> {
    st.(data := st.data[t := EmptyContainer()])
  }

  lemma EmptySame<E>(st: State<E>, t: string)
    requires t !in st.data
    ensures forall u, k, e | Has(WithEmpty(st, t), u, k, e) :: Has(st, u, k, e)
    ensures forall u, k, e | Has(st, u, k, e) :: Has(WithEmpty(st, t), u, k, e)
  {}

  lemma EmptyGood<E>(st: State<E>, t: string)
    requires Good(st) && t !in st.data
    ensures Good(WithEmpty(st, t))
  {
    EmptySame(st, t);
    assert Agrees(EmptyContainer<E>(), st.heap);
    assert AllAgree(WithEmpty(st, t));
  }

  /** So does creating an empty container. */
  lemma EmptyReached<E>(st0: State<E>, o: Outcome<E>, t: string)
    requires Reached(st0, o) && t !in o.state.data
    ensures Reached(st0, Outcome(WithEmpty(o.state, t), o.log, true))
  {
    EmptyGood(o.state, t);
    EmptySame(o.state, t);
    EmptySilent(o.state, t);
    SilentReached(st0, o, WithEmpty(o.state, t));
  }

  lemma EmptySilent<E>(st: State<E>, t: string)
    requires t !in st.data
    ensures Grows(st, WithEmpty(st, t)) && Created(st, WithEmpty(st, t))
  {
    EmptySame(st, t);
  }

  /** The state once `get_container` has been called. */
  function WithContainer<E>(st: State<E>, t: string): State<E> {
    if t in st.data then st else WithEmpty(st, t)
  }

  lemma ContainerFirst<E>(st: State<E>, t: string, key: Key, spare: E)
    requires CoversAll(st)
    ensures CoversAll(WithContainer(st, t)) && ContainerOf(WithContainer(st, t), t) == ContainerOf(st, t)
    ensures GetObject(WithContainer(st, t), t, key, spare) == GetObject(st, t, key, spare)
  {
    if t !in st.data {
      var c := ContainerOf(st, t);
      assert GetItem(c, key).None?;
      var d := SetItem(c, key, spare, TextKey(map[KEY := KeyData(key)]));
      assert st.data[t := c][t := d] == st.data[t := d];
    }
  }

  lemma CallContainerFirst<E>(st: State<E>, call: Call, push: bool, spare: E)
    requires CoversAll(st)
    ensures Decent(WithContainer(st, call.container), call) == Decent(st, call)
    ensures call.updates != [] ==>
      CallOn(WithContainer(st, call.container), call, push, spare) == CallOn(st, call, push, spare)
  {
    ContainerFirst(st, call.container, call.key, spare);
  }

  // ---------- one container and the others ----------

  /** The state as far as container t goes. */
  function Part<E>(st: State<E>, t: string): State<E> {
    State(map[t := ContainerOf(st, t)], st.heap)
  }

  lemma GetLocally<E>(st: State<E>, t: string, key: Key, spare: E)
    requires CoversAll(st) && CoversAll(Part(st, t))
    ensures var got, part := GetObject(st, t, key, spare), GetObject(Part(st, t), t, key, spare);
      && t in part.0.data && part.1 == got.1
      && got.0 == State(st.data[t := part.0.data[t]], part.0.heap)
  {}

  /** A call looks at its own container only. */
  lemma UpdateLocally<E>(st: State<E>, call: Call, push: bool, spare: E)
    requires CoversAll(st) && CoversAll(Part(st, call.container)) && call.updates != []
    ensures var o := UpdateObject(st, call, push, spare);
      var part := UpdateObject(Part(st, call.container), call, push, spare);
      && call.container in part.state.data && part.log == o.log && part.ok == o.ok
      && o.state == State(st.data[call.container := part.state.data[call.container]], part.state.heap)
  {
    GetLocally(st, call.container, call.key, spare);
  }

  /** What a call reaches, computed on its own container; `others` are the other containers. */
  lemma UpdateReached<E>(st0: State<E>, o: Outcome<E>, call: Call, push: bool, spare: E, part: Outcome<E>,
          others: map<string, Container<E>>)
    requires Reached(st0, o) && Proper(o.state, call, spare) && call.updates != []
    requires CoversAll(o.state) && CoversAll(Part(o.state, call.container))
    requires part == UpdateObject(Part(o.state, call.container), call, push, spare)
    requires call.container in o.state.data && o.state.data == others[call.container := o.state.data[call.container]]
    ensures part.ok && call.container in part.state.data
    ensures var st2 := State(others[call.container := part.state.data[call.container]], part.state.heap);
      && UpdateObject(o.state, call, push, spare) == Outcome(st2, part.log, true)
      && Reached(st0, Outcome(st2, o.log + part.log, true))
  {
    UpdateLocally(o.state, call, push, spare);
    StepReached(st0, o, call, push, spare);
    UpdatedTwice(others, call.container, o.state.data[call.container], part.state.data[call.container]);
  }

  lemma GetLocallyReached<E>(st0: State<E>, o: Outcome<E>, t: string, key: Key, spare: E, part: State<E>,
          others: map<string, Container<E>>)
    requires Reached(st0, o) && CanGet(o.state, t, key, spare)
    requires CoversAll(o.state) && CoversAll(Part(o.state, t))
    requires part == GetObject(Part(o.state, t), t, key, spare).0
    requires t in o.state.data && o.state.data == others[t := o.state.data[t]]
    ensures t in part.data
    ensures var st2 := State(others[t := part.data[t]], part.heap);
      && GetObject(o.state, t, key, spare).0 == st2
      && Reached(st0, Outcome(st2, o.log + [], true))
  {
    GetLocally(o.state, t, key, spare);
    GetReached(st0, o, t, key, spare);
    UpdatedTwice(others, t, o.state.data[t], part.data[t]);
    assert o.log + [] == o.log;
  }

  lemma UpdatedTwice<E>(others: map<string, Container<E>>, t: string, c: Container<E>, d: Container<E>)
    ensures others[t := c][t := d] == others[t := d]
  {}

  /** A call changes the properties of one element. */
  lemma UpdateTouchesOne<E>(st: State<E>, call: Call, push: bool, spare: E)
    requires CoversAll(st)
    ensures forall x | x in st.heap && x != GetObject(st, call.container, call.key, spare).1 && x != spare ::
      var heap2 := UpdateObject(st, call, push, spare).state.heap; x in heap2 && heap2[x] == st.heap[x]
  {}

  /** A call adds at most one element. */
  lemma CallAddsOne<E>(st: State<E>, call: Call, push: bool, spare: E)
    ensures CallOn(st, call, push, spare).state.heap.Keys <= st.heap.Keys + {spare}
  {}

  lemma IndexedAreItems<E>(c: Container<E>, heap: map<E, Props>)
    requires Agrees(c, heap)
    ensures ElementsOf(c) == c.items.Values
  {
    forall s | s in c.index
      ensures c.index[s] in c.items.Values
    {
      var k :| k in c.items && c.items[k] == c.index[s];
    }
  }

  /** The elements of different containers are different. */
  lemma ElementsApart<E>(st: State<E>, t: string, u: string)
    requires Good(st) && t in st.data && u in st.data && t != u
    ensures ElementsOf(st.data[t]) !! ElementsOf(st.data[u])
  {
    IndexedAreItems(st.data[t], st.heap);
    IndexedAreItems(st.data[u], st.heap);
    forall j, k | j in st.data[t].items && k in st.data[u].items
      ensures st.data[t].items[j] != st.data[u].items[k]
    {
      assert Has(st, t, j, st.data[t].items[j]);
      assert Has(st, u, k, st.data[u].items[k]);
    }
  }

  /** Over any run from a good state, the published log mirrors the store: for every element and every
      property, the last change published under the element's container and key is the stored value,
      a property without a change is as it was, and the changes of a property form a chain from the
      value before the run. The state stays good and no call raises. */
  lemma RunMirrors<E>(st: State<E>, calls: seq<Call>, spares: seq<E>, push: bool)
    requires Good(st) && |spares| == |calls| && ProperRun(Outcome(st, [], true), calls, spares, push)
    ensures var o := Run(Outcome(st, [], true), calls, spares, push);
      o.ok && Good(o.state) && Grows(st, o.state) && LogMirrors(st, o.state, o.log)
  {
    NothingMirrors(st);
    RunReached(st, Outcome(st, [], true), calls, spares, push);
  }
}
