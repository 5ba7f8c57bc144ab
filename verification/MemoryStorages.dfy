/** The state store as it runs: containers created on demand, elements changed in place, changes
    published as they happen (paradox/data/memory_storage.py). */
module MemoryStorages {
  import opened Wrappers
  import opened DeepMerge
  import opened Containers
  import opened ElementContainers
  import opened Storage
  import opened StorageRuns

  type ByName = map<string, ElementTypeContainer>

  ghost function Models(cs: ByName): map<string, Container<Element>>
    reads cs.Values
  {
    map n | n in cs :: cs[n].Model()
  }

  /** `heap` has the properties of all elements as they are. */
  ghost predicate AllPictured(cs: ByName, heap: map<Element, Props>)
    reads cs.Values, heap.Keys
  {
    forall n {:trigger PicturedAt(cs, n, heap)} | n in cs :: PicturedAt(cs, n, heap)
  }

  ghost predicate PicturedAt(cs: ByName, n: string, heap: map<Element, Props>)
    requires n in cs
    reads cs.Values, heap.Keys
  {
    cs[n].Elements() <= heap.Keys && cs[n].Pictured(heap)
  }

  /** No two names share a container. */
  ghost predicate Apart(cs: ByName) {
    forall n {:trigger AloneAt(cs, n)} | n in cs :: AloneAt(cs, n)
  }

  ghost predicate AloneAt(cs: ByName, n: string)
    requires n in cs
  {
    cs[n] !in (cs - {n}).Values
  }

  /** The properties of all elements as they are; and a state from which the log is read, with the
      length of the log then. */
  datatype Since = Since(heap: map<Element, Props>, initial: State<Element>, mark: nat)

  ghost function StoreOf(cs: ByName, since: Since): State<Element>
    reads cs.Values
  {
    State(Models(cs), since.heap)
  }

  /** The log since the initial state tells what became of the store: the index of every container is
      right, every element stands in one container, and for every element and property the last
      published value is the stored one. */
  ghost predicate Mirrored(cs: ByName, since: Since, published: seq<Change>)
    reads cs.Values, since.heap.Keys
  {
    match since
    case Since(heap, initial, mark) =>
      && Apart(cs) && AllPictured(cs, heap) && mark <= |published|
      && Reached(initial, Outcome(StoreOf(cs, since), published[mark..], true))
  }

  /** Containers that a call does not concern, and what they hold. */
  datatype Others = Others(cs: ByName, models: map<string, Container<Element>>, heap: map<Element, Props>)

  ghost function ObjectsOf(others: Others): set<object> {
    others.cs.Values + others.heap.Keys
  }

  ghost predicate AsBefore(others: Others)
    reads ObjectsOf(others)
  {
    match others
    case Others(cs, models, heap) => Models(cs) == models && AllPictured(cs, heap)
  }

  /** The store is st, and the log up to here tells how it came about; `others` are the containers
      beside the named one. */
  ghost predicate Planned(name: string, st: State<Element>, others: Others, since: Since, log: seq<Change>) {
    match others
    case Others(cs, models, heap) =>
      && name in st.data && st.data == models[name := st.data[name]]
      && (forall x | x in heap :: x in st.heap && heap[x] == st.heap[x])
      && heap.Keys !! Containers.ElementsOf(st.data[name])
      && CoversAll(st) && CoversAll(Part(st, name))
      && since.mark <= |log| && Reached(since.initial, Outcome(st, log[since.mark..], true))
  }

  /** e is the element that the key finds, or a new one. */
  predicate IsObject(st: State<Element>, t: string, key: Key, e: Element) {
    match GetItem(ContainerOf(st, t), key)
    case None => e !in st.heap
    case Some(found) => found == e
  }

  class MemoryStorage {
    var data: ByName
    /** Every Change handed to `ps.sendChange`, in order. */
    var published: seq<Change>

    ghost var since: Since

    /** The whole store as a value. */
    ghost function Whole(): State<Element>
      reads this, data.Values
    {
      StoreOf(data, since)
    }

    /** The objects it consists of. */
    ghost function Repr(): set<object>
      reads this
    {
      {this} + data.Values + since.heap.Keys
    }

    ghost predicate Valid()
      reads this, data.Values, since.heap.Keys
    {
      Mirrored(data, since, published)
    }

    constructor ()
      ensures fresh(Repr())
      ensures Valid() && data == map[] && published == [] && since == Since(map[], State(map[], map[]), 0)
    {
      data, published := map[], [];
      since := Since(map[], State(map[], map[]), 0);
      new;
      assert Whole() == since.initial;
      StartReached(since.initial);
    }

    ghost function ModelOf(name: string): Container<Element>
      reads this, if name in data then {data[name]} else {}
    {
      if name in data then data[name].Model() else EmptyContainer()
    }

    /** The store as a value, as far as one container goes. */
    ghost function StateOf(name: string, heap: map<Element, Props>): State<Element>
      reads this, if name in data then {data[name]} else {}
    {
      State(map[name := ModelOf(name)], heap)
    }

    /** The container is as the state says, with the elements in it. */
    ghost predicate IsNow(name: string, st: State<Element>)
      reads this, if name in data then {data[name]} + data[name].Elements() else {}
    {
      match name in data && name in st.data
      case true => data[name].Model() == st.data[name] && data[name].Pictured(st.heap)
      case false => false
    }

    method CreateContainer(name: string, c: ElementTypeContainer)
      requires name !in data && c !in data.Values && c.Model() == EmptyContainer()
      modifies this`data
      ensures data == old(data)[name := c]
      ensures old(Valid()) ==> Valid() && Whole() == WithEmpty(old(Whole()), name)
    {
      if Valid() {
        AddedMirrored(data, name, c, since, published);
      }
      data := data[name := c];
    }

    /** `get_container`: a missing container is created. */
    method ContainerFor(name: string, ghost heap: map<Element, Props>) returns (c: ElementTypeContainer)
      requires name in data ==> data[name].Pictured(heap)
      modifies this`data
      ensures name in data && data[name] == c && IsNow(name, old(StateOf(name, heap)))
      ensures if name in old(data) then data == old(data) else fresh(c) && data == old(data)[name := c]
      ensures old(Valid()) ==> Valid() && Whole() == WithContainer(old(Whole()), name)
      ensures forall x | x in Repr() :: x in old(Repr()) || fresh(x)
    {
      if name !in data {
        c := new ElementTypeContainer();
        CreateContainer(name, c);
      }
      c := data[name];
    }

    /** The container is as GetObject says, which returned e. */
    ghost predicate IsGot(name: string, key: Key, before: State<Element>, e: Element, got: State<Element>)
      reads this, e, if name in data then {data[name]} + data[name].Elements() else {}
    {
      match CoversAll(before) && IsNow(name, got) && e in got.heap
      case true => GetObject(before, name, key, e) == (got, e) && got.heap[e] == e.props
      case false => false
    }

    /** Store a new element with this key. */
    method Create(name: string, key: Key, ghost before: State<Element>) returns (e: Element, ghost got: State<Element>)
      requires IsNow(name, before) && before.data.Keys == {name} && GetItem(before.data[name], key).None?
      modifies data[name]
      ensures fresh(e) && IsGot(name, key, before, e, got)
    {
      e := new Element(map[KEY := KeyData(key)]);
      got := GetObject(before, name, key, e).0;
      data[name].Store(key, e, got.heap);
      assert data[name].Model() == got.data[name];
    }

    lemma Found(name: string, key: Key, before: State<Element>, e: Element)
      requires IsNow(name, before) && before.data.Keys == {name} && GetItem(before.data[name], key) == Some(e)
      ensures IsGot(name, key, before, e, before) && e in data[name].Elements()
    {
      FoundUnchanged(before, name, key, e);
    }

    /** Look for the element in its container, and create it if it is missing and wanted. */
    method Obtain(name: string, key: Key, create: bool, ghost before: State<Element>)
      returns (r: Option<Element>, ghost got: State<Element>)
      requires IsNow(name, before) && before.data.Keys == {name}
      modifies data[name]
      ensures r.None? <==> !create && GetItem(before.data[name], key).None?
      ensures r.None? ==> IsNow(name, before) && got == before
      ensures r.Some? ==> IsGot(name, key, before, r.value, got)
      ensures r.Some? ==> if GetItem(before.data[name], key).None? then fresh(r.value)
                          else GetItem(before.data[name], key) == r && r.value in old(data[name].Elements())
    {
      got := before;
      r := data[name].Get(key);
      if r.Some? {
        Found(name, key, before, r.value);
      } else if create {
        var e;
        e, got := Create(name, key, before);
        r := Some(e);
      }
    }

    /** One turn of the loop of `update_container_object`. */
    method ApplyUpdate(name: string, objectKey: Data, e: Element, property: Key, u: Update, push: bool)
      modifies this`published, e
      ensures var a := ApplyOne(name, objectKey, old(e.props), property, u, push);
        e.props == a.props && published == old(published) + a.log
    {
      if property.Id? {
        return;
      }
      if IsPrivate(property) {
        return;
      }
      var before := Old(e.props, property);
      var value := NewValue(u, before);
      if value.None? {
        return;
      }
      if property in e.props && before == value.value && !push {
        return;
      }
      e.props := e.props[property := value.value];
      published := published + [Change(name, objectKey, property.s, value.value, before)];
    }

    /** The loop of `update_container_object`. */
    method ApplyUpdates(name: string, objectKey: Data, e: Element, updates: Updates, push: bool)
      modifies this`published, e
      ensures var a := Apply(name, objectKey, old(e.props), updates, push);
        e.props == a.props && published == old(published) + a.log
    {
      for i := 0 to |updates|
        invariant var a := Apply(name, objectKey, old(e.props), updates[..i], push);
          e.props == a.props && published == old(published) + a.log
      {
        ApplyAppend(name, objectKey, old(e.props), updates[..i], updates[i].0, updates[i].1, push);
        assert updates[..i + 1] == updates[..i] + [updates[i]];
        ApplyUpdate(name, objectKey, e, updates[i].0, updates[i].1, push);
      }
      assert updates[..|updates|] == updates;
    }

    /** The call has ended as the outcome says. */
    ghost predicate IsDone(name: string, before: seq<Change>, ok: bool, o: Outcome<Element>)
      reads this, if name in data then {data[name]} + data[name].Elements() else {}
    {
      match o
      case Outcome(st, log, k) => ok == k && published == before + log && IsNow(name, st)
    }

    /** The loop, on an element of the container. */
    method UpdateElement(name: string, objectKey: Data, e: Element, updates: Updates, push: bool,
            ghost got: State<Element>)
      requires IsNow(name, got) && e in got.heap && got.heap[e] == e.props
      modifies this`published, e
      ensures var a := Apply(name, objectKey, got.heap[e], updates, push);
        published == old(published) + a.log && IsNow(name, got.(heap := got.heap[e := a.props]))
    {
      data[name].PictureWithout(got.heap, e);
      ApplyUpdates(name, objectKey, e, updates, push);
      data[name].PictureWith(got.heap, e);
    }

    /** The second half of `update_container_object`. */
    method UpdateObtained(name: string, e: Element, ghost call: Call, updates: Updates, push: bool,
            ghost got: State<Element>) returns (ok: bool)
      requires IsNow(name, got) && e in got.heap && got.heap[e] == e.props
      requires call.container == name && call.updates == updates
      modifies this`published, e
      ensures IsDone(name, old(published), ok, UpdateFound(got, e, call, push))
    {
      ok := KEY in e.props;
      assert published + [] == published;
      if ok {
        UpdateElement(name, e.props[KEY], e, updates, push, got);
      }
    }

    lemma GotIsUpdated(name: string, call: Call, before: State<Element>, e: Element, got: State<Element>, push: bool)
      requires IsGot(name, call.key, before, e, got) && call.container == name && call.updates != []
      ensures IsNow(name, got) && e in got.heap && got.heap[e] == e.props && CoversAll(before)
      ensures UpdateObject(before, call, push, e) == UpdateFound(got, e, call, push)
    {}

    /** The call, once the container is there. */
    method UpdateIn(name: string, key: Key, updates: Updates, push: bool, ghost before: State<Element>)
      returns (ok: bool, ghost e: Element)
      requires updates != [] && IsNow(name, before) && before.data.Keys == {name}
      modifies this`published, data[name], data[name].Elements()
      ensures IsObject(before, name, key, e) && (fresh(e) || e in old(data[name].Elements()))
      ensures IsDone(name, old(published), ok, CallOn(before, Call(name, key, updates), push, e))
    {
      ghost var got;
      var element;
      element, got := Obtain(name, key, true, before);
      e := element.value;
      GotIsUpdated(name, Call(name, key, updates), before, e, got, push);
      ok := UpdateObtained(name, element.value, Call(name, key, updates), updates, push, got);
    }

    // ---------- the calls ----------

    /** `get_container` */
    method GetContainer(name: string) returns (c: ElementTypeContainer)
      requires Valid()
      modifies this`data
      ensures Valid() && Whole() == WithContainer(old(Whole()), name)
      ensures name in data && data[name] == c
      ensures if name in old(data) then data == old(data) else fresh(c) && data == old(data)[name := c]
      ensures forall x | x in Repr() :: x in old(Repr()) || fresh(x)
    {
      if name !in data {
        c := new ElementTypeContainer();
        CreateContainer(name, c);
      }
      c := data[name];
    }

    lemma PartIs(name: string)
      requires name in data
      ensures StateOf(name, since.heap) == Part(Whole(), name)
    {}

    /** What a call may change. */
    ghost function Concerned(name: string): set<object>
      requires name in data
      reads this, data[name]
    {
      {this, data[name]} + data[name].Elements()
    }

    /** UpdateIn leaves the other containers alone. */
    method UpdateBeside(name: string, key: Key, updates: Updates, push: bool, ghost before: State<Element>,
            ghost others: Others)
      returns (ok: bool, ghost e: Element)
      requires updates != [] && IsNow(name, before) && before.data.Keys == {name} && AsBefore(others)
      requires ObjectsOf(others) !! Concerned(name)
      modifies this`published, data[name], data[name].Elements()
      ensures AsBefore(others)
      ensures IsObject(before, name, key, e) && (fresh(e) || e in old(data[name].Elements()))
      ensures IsDone(name, old(published), ok, CallOn(before, Call(name, key, updates), push, e))
    {
      ok, e := UpdateIn(name, key, updates, push, before);
    }

    /** What UpdateIn has done, seen as a call on the store. */
    lemma Settled(name: string, call: Call, push: bool, st: State<Element>, before: seq<Change>, ok: bool, e: Element,
            others: Others)
      requires name in data && call.container == name && Apart(data) && others.cs == data - {name} && AsBefore(others)
      requires Planned(name, st, others, since, before) && Decent(st, call) && call.updates != []
      requires IsObject(Part(st, name), name, call.key, e)
      requires IsDone(name, before, ok, CallOn(Part(st, name), call, push, e))
      ensures ok && AlmostCalled(before, CallOn(st, call, push, e))
    {
      var o := UpdateObject(Part(st, name), call, push, e);
      RestKept(st, call, push, e, others.heap);
      UpdateReached(since.initial, Outcome(st, before[since.mark..], true), call, push, e, o, others.models);
      ChangedMirrored(data, name, since, before, others.models, others.heap, o.state.data[name], o.state.heap, o.log);
    }

    /** What a call does not concern. */
    ghost function OthersOf(name: string): Others
      requires name in data
      reads this, data.Values
    {
      Others(data - {name}, Models(data - {name}), since.heap - data[name].Elements())
    }

    /** The container is there, apart from the others, and the store is st. */
    ghost predicate Prepared(name: string, st: State<Element>, others: Others)
      reads this, data.Values, ObjectsOf(others)
      reads if name in data then data[name].Elements() else {}
    {
      match others
      case Others(cs, models, heap) =>
        && name in data && Apart(data) && cs == data - {name} && AsBefore(others)
        && ObjectsOf(others) !! Concerned(name)
        && IsNow(name, Part(st, name)) && Planned(name, st, others, since, published)
    }

    lemma Prepare(name: string)
      requires Valid() && name in data
      ensures Prepared(name, Whole(), OthersOf(name))
    {
      PartIs(name);
      OthersApart(data, name, since, published);
    }

    /** The store is as the call leaves it. */
    ghost predicate IsCalled(before: seq<Change>, was: Since, o: Outcome<Element>)
      reads this, data.Values, since.heap.Keys
    {
      match o
      case Outcome(state, log, ok) =>
        && ok && Whole() == state && published == before + log
        && Valid() && since == was.(heap := state.heap)
    }

    /** Everything but the ghost picture of the elements is as the call leaves it. */
    ghost predicate AlmostCalled(before: seq<Change>, o: Outcome<Element>)
      reads this, data.Values, o.state.heap.Keys
    {
      match o
      case Outcome(state, log, ok) =>
        && ok && published == before + log && Mirrored(data, since.(heap := state.heap), published)
        && StoreOf(data, since.(heap := state.heap)) == state
    }

    /** The call on the store. */
    method UpdatePrepared(name: string, key: Key, updates: Updates, push: bool, ghost st: State<Element>,
            ghost others: Others)
      returns (ok: bool, ghost e: Element, ghost o: Outcome<Element>)
      requires name in data && Prepared(name, st, others) && Decent(st, Call(name, key, updates)) && updates != []
      modifies this`published, data[name], data[name].Elements()
      ensures ok && Makes(st, Call(name, key, updates), push, e, o) && AlmostCalled(old(published), o)
      ensures fresh(e) || e in old(data[name].Elements())
    {
      ghost var call, before := Call(name, key, updates), Part(st, name);
      ok, e := UpdateBeside(name, key, updates, push, before, others);
      o := CallOn(st, call, push, e);
      Settled(name, call, push, st, old(published), ok, e, others);
      MadeOnPart(st, call, push, e);
    }

    ghost method Repicture(before: seq<Change>, o: Outcome<Element>)
      requires AlmostCalled(before, o)
      modifies this`since
      ensures IsCalled(before, old(since), o)
    {
      since := since.(heap := o.state.heap);
    }

    /** The call, once the container is there; e is the element found, or the new one. */
    method UpdateThere(name: string, key: Key, updates: Updates, push: bool)
      returns (ok: bool, ghost e: Element, ghost o: Outcome<Element>)
      requires Valid() && name in data && updates != [] && Decent(Whole(), Call(name, key, updates))
      modifies Repr()
      ensures ok && Makes(old(Whole()), Call(name, key, updates), push, e, o)
      ensures IsCalled(old(published), old(since), o)
      ensures (fresh(e) || e in old(since).heap) && forall x | x in Repr() :: x in old(Repr()) || fresh(x)
    {
      ghost var st := Whole();
      Prepare(name);
      ElementsKnown(name);
      ok, e, o := UpdatePrepared(name, key, updates, push, st, OthersOf(name));
      Repicture(old(published), o);
    }

    // ---------- creating an element ----------

    /** Create leaves the other containers alone. */
    method CreateBeside(name: string, key: Key, ghost before: State<Element>, ghost others: Others)
      returns (e: Element, ghost got: State<Element>)
      requires IsNow(name, before) && before.data.Keys == {name} && GetItem(before.data[name], key).None?
      requires AsBefore(others) && ObjectsOf(others) !! Concerned(name)
      modifies data[name]
      ensures fresh(e) && AsBefore(others) && IsGot(name, key, before, e, got)
    {
      e, got := Create(name, key, before);
    }

    /** What Create has done, seen as a change of the store. */
    lemma CreationSettled(name: string, key: Key, st: State<Element>, e: Element, got: State<Element>, others: Others)
      requires name in data && Apart(data) && others.cs == data - {name} && AsBefore(others)
      requires Planned(name, st, others, since, published) && CanGet(st, name, key, e) && e !in others.heap
      requires GetItem(ContainerOf(st, name), key).None? && IsGot(name, key, Part(st, name), e, got)
      ensures CoversAll(st) && AlmostCalled(published, Outcome(GetObject(st, name, key, e).0, [], true))
    {
      GetLocallyReached(since.initial, Outcome(st, published[since.mark..], true), name, key, e, got, others.models);
      ChangedMirrored(data, name, since, published, others.models, others.heap, got.data[name], got.heap, []);
      assert published + [] == published;
    }

    method CreatePrepared(name: string, key: Key, ghost st: State<Element>, ghost others: Others)
      returns (e: Element, ghost o: Outcome<Element>)
      requires name in data && Prepared(name, st, others) && Creatable(st, name, key)
      requires GetItem(ContainerOf(st, name), key).None?
      modifies data[name]
      ensures fresh(e) && CoversAll(st) && o == Outcome(GetObject(st, name, key, e).0, [], true)
      ensures AlmostCalled(published, o)
    {
      ghost var got;
      e, got := CreateBeside(name, key, Part(st, name), others);
      CreationSettled(name, key, st, e, got, others);
      o := Outcome(GetObject(st, name, key, e).0, [], true);
    }

    method CreateThere(name: string, key: Key) returns (e: Element, ghost o: Outcome<Element>)
      requires Valid() && name in data && Creatable(Whole(), name, key)
      requires GetItem(ContainerOf(Whole(), name), key).None?
      modifies this`since, data[name]
      ensures fresh(e) && CoversAll(old(Whole())) && o == Outcome(GetObject(old(Whole()), name, key, e).0, [], true)
      ensures IsCalled(published, old(since), o) && fresh(since.heap.Keys - old(since.heap.Keys))
    {
      ghost var st := Whole();
      Prepare(name);
      e, o := CreatePrepared(name, key, st, OthersOf(name));
      Repicture(published, o);
    }

    // ---------- the calls on the store ----------

    lemma ValidCovers()
      requires Valid()
      ensures CoversAll(Whole())
    {}

    lemma ModelThere(name: string)
      requires name in data
      ensures ContainerOf(Whole(), name) == data[name].Model()
    {}

    lemma ElementsKnown(name: string)
      requires Valid() && name in data
      ensures data[name].Elements() <= since.heap.Keys
    {
      assert PicturedAt(data, name, since.heap);
    }

    /** A store that has been filled otherwise: from now on the log tells what becomes of it. */
    ghost method Adopt(heap: map<Element, Props>)
      requires Apart(data) && AllPictured(data, heap) && Good(State(Models(data), heap))
      modifies this`since
      ensures Valid() && since == Since(heap, State(Models(data), heap), |published|)
    {
      since := Since(heap, State(Models(data), heap), |published|);
      StartReached(since.initial);
      assert published[|published|..] == [];
    }

    /** What Valid promises: the value of a property of a stored element is the last one published since
        then under its container and key, or, if there is none, what it was then; an element created
        since then had its key and nothing else. */
    lemma StoredIsPublished(name: string, k: Key, property: string)
      requires Valid() && name in data && k in data[name].items
      ensures var e := data[name].items[k];
        var r := Replayed(published[since.mark..], name, Old(e.props, KEY), property);
        PropertyOf(e.props, property)
        == if r.Some? then r else PropertyOf(Base(since.initial.heap, e, e.props), property)
    {
      var e := data[name].items[k];
      assert PicturedAt(data, name, since.heap);
      assert Has(Whole(), name, k, e);
      assert Mirrors(Base(since.initial.heap, e, e.props), e.props, published[since.mark..], name, Old(e.props, KEY));
    }

    /** Look for the element in its container, and create it if it is missing and wanted. */
    method ObjectThere(name: string, key: Key, create: bool) returns (r: Option<Element>)
      requires Valid() && name in data && (create ==> Creatable(Whole(), name, key))
      modifies this`since, data[name]
      ensures Valid() && since.initial == old(since).initial && since.mark == old(since).mark
      ensures Gives(old(Whole()), name, key, create, r, Whole())
      ensures r.Some? && GetItem(ContainerOf(old(Whole()), name), key).None? ==> fresh(r.value)
      ensures forall x | x in Repr() :: x in old(Repr()) || fresh(x)
    {
      ghost var st := Whole();
      ValidCovers();
      ModelThere(name);
      r := data[name].Get(key);
      if r.Some? {
        FoundIsGot(st, name, key, r.value);
      } else if create {
        var e;
        ghost var o;
        e, o := CreateThere(name, key);
        r := Some(e);
      }
    }

    /** `get_container_object`; with `create`, a missing element is created. Nothing is published. */
    method GetContainerObject(name: string, key: Key, create: bool) returns (r: Option<Element>)
      requires Valid() && (create ==> Creatable(Whole(), name, key))
      modifies this`data, this`since, data.Values
      ensures Valid() && since.initial == old(since).initial && since.mark == old(since).mark
      ensures Gives(old(Whole()), name, key, create, r, Whole())
      ensures r.Some? && GetItem(ContainerOf(old(Whole()), name), key).None? ==> fresh(r.value)
      ensures forall x | x in Repr() :: x in old(Repr()) || fresh(x)
    {
      ghost var st := Whole();
      ValidCovers();
      var _ := GetContainer(name);
      GetFirst(st, name, key);
      r := ObjectThere(name, key, create);
      GivenFirst(st, name, key, create, r, Whole());
    }

    /** The call with something to update. */
    method UpdateSome(name: string, key: Key, updates: Updates, push: bool)
      returns (ok: bool, ghost e: Element, ghost o: Outcome<Element>)
      requires Valid() && updates != [] && Decent(WithContainer(Whole(), name), Call(name, key, updates))
      modifies Repr()
      ensures ok && Makes(WithContainer(old(Whole()), name), Call(name, key, updates), push, e, o)
      ensures IsCalled(old(published), old(since), o)
      ensures (fresh(e) || e in old(since).heap) && forall x | x in Repr() :: x in old(Repr()) || fresh(x)
    {
      var _ := GetContainer(name);
      ok, e, o := UpdateThere(name, key, updates, push);
    }

    /** `update_container_object` on a store that holds what the log says. It is the call of module
        StorageRuns on the whole store, with e the element found or created; it does not raise. */
    method UpdateContainerObject(name: string, key: Key, updates: Updates, push: bool)
      returns (ok: bool, ghost e: Option<Element>)
      requires Valid() && Decent(Whole(), Call(name, key, updates))
      modifies Repr()
      ensures Valid() && ok
      ensures forall x | x in Repr() :: x in old(Repr()) || fresh(x)
      ensures updates == [] ==> e.None? && IsCalled(old(published), old(since), Outcome(old(Whole()), [], true))
      ensures updates != [] ==> e.Some? && (GetItem(ContainerOf(old(Whole()), name), key).None? ==> fresh(e.value))
      ensures updates != [] ==>
        IsCalled(old(published), old(since), CallOn(old(Whole()), Call(name, key, updates), push, e.value))
    {
      if updates == [] {
        assert published + [] == published;
        return true, None;
      }
      ghost var st, call := Whole(), Call(name, key, updates);
      ValidCovers();
      FirstDecent(st, call);
      ghost var found, o;
      ok, found, o := UpdateSome(name, key, updates, push);
      MadeFirst(st, call, push, found, o);
      e := Some(found);
    }
  }

  /** The call on the store, with e the element found or a new one. */
  ghost predicate Makes(st: State<Element>, call: Call, push: bool, e: Element, o: Outcome<Element>) {
    match o
    case Outcome(state, _, _) =>
      && o == CallOn(st, call, push, e) && state.heap.Keys <= st.heap.Keys + {e}
      && (GetItem(ContainerOf(st, call.container), call.key).None? ==> e !in st.heap)
  }

  lemma MadeOnPart(st: State<Element>, call: Call, push: bool, e: Element)
    requires IsObject(Part(st, call.container), call.container, call.key, e)
    ensures Makes(st, call, push, e, CallOn(st, call, push, e))
  {
    CallAddsOne(st, call, push, e);
  }

  lemma MadeFirst(st: State<Element>, call: Call, push: bool, e: Element, o: Outcome<Element>)
    requires CoversAll(st) && call.updates != [] && Makes(WithContainer(st, call.container), call, push, e, o)
    ensures Makes(st, call, push, e, o)
  {
    CallContainerFirst(st, call, push, e);
    GetFirst(st, call.container, call.key);
  }

  /** What `get_container_object` makes of the store. */
  ghost predicate Gives(st: State<Element>, name: string, key: Key, create: bool, r: Option<Element>,
          now: State<Element>)
  {
    match r
    case None => !create && GetItem(ContainerOf(st, name), key).None? && now == WithContainer(st, name)
    case Some(e) =>
      && CoversAll(st) && GetObject(st, name, key, e) == (now, e)
      && (create || GetItem(ContainerOf(st, name), key).Some?)
  }

  lemma GivenFirst(st: State<Element>, name: string, key: Key, create: bool, r: Option<Element>, now: State<Element>)
    requires CoversAll(st) && Gives(WithContainer(st, name), name, key, create, r, now)
    ensures Gives(st, name, key, create, r, now)
  {
    match r
    case None => assert WithContainer(WithContainer(st, name), name) == WithContainer(st, name);
    case Some(e) => ContainerFirst(st, name, key, e);
  }

  lemma GetFirst(st: State<Element>, name: string, key: Key)
    requires CoversAll(st)
    ensures Creatable(WithContainer(st, name), name, key) == Creatable(st, name, key)
    ensures ContainerOf(WithContainer(st, name), name) == ContainerOf(st, name)
  {}

  lemma FoundIsGot(st: State<Element>, name: string, key: Key, e: Element)
    requires CoversAll(st) && GetItem(ContainerOf(st, name), key) == Some(e)
    ensures GetObject(st, name, key, e) == (WithContainer(st, name), e)
  {
    FoundUnchanged(st, name, key, e);
  }

  lemma FirstDecent(st: State<Element>, call: Call)
    requires CoversAll(st)
    ensures Decent(WithContainer(st, call.container), call) == Decent(st, call)
  {}

  /** The elements of the other containers are not those of this one. */
  lemma OthersApart(cs: ByName, name: string, since: Since, published: seq<Change>)
    requires Mirrored(cs, since, published) && name in cs
    ensures cs[name] !in (cs - {name}).Values && cs[name].Pictured(since.heap)
    ensures AllPictured(cs - {name}, since.heap - cs[name].Elements())
    ensures Models(cs) == Models(cs - {name})[name := cs[name].Model()]
  {
    var others := cs - {name};
    assert PicturedAt(cs, name, since.heap) && AloneAt(cs, name);
    forall n | n in others
      ensures PicturedAt(others, n, since.heap - cs[name].Elements())
    {
      OtherApart(cs, name, n, since, published);
    }
    ModelsJoin(cs, name);
  }

  lemma OtherApart(cs: ByName, name: string, n: string, since: Since, published: seq<Change>)
    requires Mirrored(cs, since, published) && name in cs && n in cs && n != name
    ensures cs[n].Elements() <= (since.heap - cs[name].Elements()).Keys
    ensures cs[n].Pictured(since.heap - cs[name].Elements())
  {
    ElementsApart(StoreOf(cs, since), name, n);
    assert PicturedAt(cs, n, since.heap);
    FewerPictured(cs[n], since.heap, since.heap - cs[name].Elements());
  }

  lemma FewerPictured(c: ElementTypeContainer, heap: map<Element, Props>, heap2: map<Element, Props>)
    requires c.Pictured(heap) && c.Elements() <= heap2.Keys
    requires forall x | x in heap2 && x in heap :: heap2[x] == heap[x]
    ensures c.Pictured(heap2)
  {}

  lemma RestKept(st: State<Element>, call: Call, push: bool, e: Element, rest: map<Element, Props>)
    requires CoversAll(st) && CoversAll(Part(st, call.container)) && e !in rest
    requires forall x | x in rest :: x in st.heap && rest[x] == st.heap[x]
    requires var found := GetItem(ContainerOf(st, call.container), call.key); found.None? || found == Some(e)
    ensures var heap2 := UpdateObject(Part(st, call.container), call, push, e).state.heap;
      forall x | x in rest :: x in heap2 && heap2[x] == rest[x]
  {
    UpdateTouchesOne(Part(st, call.container), call, push, e);
  }

  /** Elements that a change has not touched are still as they were pictured. */
  lemma StillPictured(cs: ByName, heap: map<Element, Props>, heap2: map<Element, Props>)
    requires AllPictured(cs, heap) && forall x | x in heap :: x in heap2 && heap2[x] == heap[x]
    ensures AllPictured(cs, heap2)
  {
    forall n | n in cs
      ensures PicturedAt(cs, n, heap2)
    {
      assert PicturedAt(cs, n, heap);
      FewerPictured(cs[n], heap, heap2);
    }
  }

  lemma ModelsJoin(cs: ByName, name: string)
    requires name in cs
    ensures Models(cs) == Models(cs - {name})[name := cs[name].Model()]
  {
    var joined := Models(cs - {name})[name := cs[name].Model()];
    forall n | n in cs
      ensures n in joined && joined[n] == cs[n].Model()
    {
      if n != name {
        assert n in cs - {name} && (cs - {name})[n] == cs[n];
      }
    }
  }

  lemma PicturesJoin(cs: ByName, name: string, heap: map<Element, Props>)
    requires name in cs && AllPictured(cs - {name}, heap) && cs[name].Pictured(heap)
    ensures AllPictured(cs, heap)
  {
    forall n | n in cs
      ensures PicturedAt(cs, n, heap)
    {
      if n != name {
        assert PicturedAt(cs - {name}, n, heap);
      }
    }
  }

  /** One container and the log have changed. */
  lemma ChangedMirrored(cs: ByName, name: string, since: Since, published: seq<Change>,
          others: map<string, Container<Element>>, rest: map<Element, Props>, c: Container<Element>,
          heap: map<Element, Props>, log: seq<Change>)
    requires name in cs && Apart(cs) && Models(cs - {name}) == others && AllPictured(cs - {name}, rest)
    requires cs[name].Model() == c && cs[name].Pictured(heap)
    requires forall x | x in rest :: x in heap && heap[x] == rest[x]
    requires since.mark <= |published|
    requires Reached(since.initial, Outcome(State(others[name := c], heap), published[since.mark..] + log, true))
    ensures Mirrored(cs, since.(heap := heap), published + log)
    ensures StoreOf(cs, since.(heap := heap)) == State(others[name := c], heap)
  {
    StillPictured(cs - {name}, rest, heap);
    PicturesJoin(cs, name, heap);
    ModelsJoin(cs, name);
    LogGrows(published, since.mark, log);
  }

  lemma LogGrows(xs: seq<Change>, n: nat, ys: seq<Change>)
    requires n <= |xs|
    ensures (xs + ys)[n..] == xs[n..] + ys
  {}

  lemma AddedModels(cs: ByName, name: string, c: ElementTypeContainer)
    requires name !in cs && c.Model() == EmptyContainer()
    ensures Models(cs[name := c]) == Models(cs)[name := EmptyContainer()]
  {}

  lemma AddedPictured(cs: ByName, name: string, c: ElementTypeContainer, heap: map<Element, Props>)
    requires AllPictured(cs, heap) && c.Model() == EmptyContainer()
    ensures AllPictured(cs[name := c], heap)
  {
    var more := cs[name := c];
    forall n | n in more
      ensures PicturedAt(more, n, heap)
    {
      if n != name {
        assert PicturedAt(cs, n, heap);
      }
    }
  }

  lemma AddedApart(cs: ByName, name: string, c: ElementTypeContainer)
    requires Apart(cs) && name !in cs && c !in cs.Values
    ensures Apart(cs[name := c])
  {
    var more := cs[name := c];
    forall n | n in more
      ensures AloneAt(more, n)
    {
      if n != name {
        assert AloneAt(cs, n);
        assert more - {n} == (cs - {n})[name := c];
      } else {
        assert more - {n} == cs;
      }
    }
  }

  lemma AddedReached(cs: ByName, name: string, c: ElementTypeContainer, since: Since, log: seq<Change>)
    requires Reached(since.initial, Outcome(StoreOf(cs, since), log, true))
    requires name !in cs && c.Model() == EmptyContainer()
    ensures Reached(since.initial, Outcome(StoreOf(cs[name := c], since), log, true))
  {
    EmptyReached(since.initial, Outcome(StoreOf(cs, since), log, true), name);
    AddedModels(cs, name, c);
  }

  lemma AddedMirrored(cs: ByName, name: string, c: ElementTypeContainer, since: Since, published: seq<Change>)
    requires Mirrored(cs, since, published)
    requires name !in cs && c !in cs.Values && c.Model() == EmptyContainer()
    ensures Mirrored(cs[name := c], since, published)
    ensures StoreOf(cs[name := c], since) == WithEmpty(StoreOf(cs, since), name)
  {
    AddedModels(cs, name, c);
    AddedApart(cs, name, c);
    AddedPictured(cs, name, c, since.heap);
    AddedReached(cs, name, c, since, published[since.mark..]);
  }
}
