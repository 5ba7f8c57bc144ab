/** `deep_merge` of paradox/lib/utils.py as it runs: on dictionary objects that are changed in place. */
module DictObjects {
  import opened Wrappers
  import opened DeepMerge

  /** What an object holds under a key: a nested dictionary object, or data that is none. */
  datatype Slot = Plain(d: Data) | Nested(o: DictObject)

  /** The value of what is held. */
  ghost function DataOf(s: Slot): Data
    reads Objects(s)
  {
    match s
    case Plain(d) => d
    case Nested(o) => Dict(o.view)
  }

  /** The object itself, if it is one. */
  ghost function Objects(s: Slot): set<object> {
    match s
    case Plain(_) => {}
    case Nested(o) => {o}
  }

  /** The objects it consists of. */
  ghost function Footprint(s: Slot): set<object>
    reads Objects(s)
  {
    match s
    case Plain(_) => {}
    case Nested(o) => o.repr
  }

  /** Data that is no dictionary, or a whole tree of objects. */
  ghost predicate Ready(s: Slot)
    reads if s.Nested? then {s.o} + s.o.repr else {}
  {
    match s
    case Plain(d) => !d.Dict?
    case Nested(o) => o.Valid()
  }

  /** What is held belongs to `self`, whose objects are `repr`, and has the value d. */
  ghost predicate Owned(self: DictObject, repr: set<object>, s: Slot, d: Data)
    reads Objects(s)
  {
    match s
    case Plain(x) => !x.Dict? && d == x
    case Nested(o) => o in repr && o.repr <= repr && self !in o.repr && d == Dict(o.view)
  }

  /** Everything held belongs to `self` under one key only. */
  ghost predicate Tree(self: DictObject, items: map<Key, Slot>, view: map<Key, Data>, repr: set<object>)
    reads repr - {self}
  {
    match self in repr && view.Keys == items.Keys
    case false => false
    case true =>
      && (forall k | k in items :: Objects(items[k]) <= repr - {self} && Owned(self, repr, items[k], view[k]))
      && forall j, k {:trigger AreApart(items[j], items[k])} | j in items && k in items && j != k ::
          AreApart(items[j], items[k])
  }

  ghost predicate AreApart(s: Slot, t: Slot)
    reads Objects(s), Objects(t)
  {
    Footprint(s) !! Footprint(t)
  }

  class DictObject {
    var items: map<Key, Slot>
    ghost var repr: set<object>
    /** The values of the items. */
    ghost var view: map<Key, Data>

    /** The nested objects form a tree: none is shared. */
    ghost predicate Valid()
      reads this, repr
      decreases repr
    {
      match Tree(this, items, view, repr)
      case false => false
      case true => forall k | k in items && items[k].Nested? :: items[k].o.Valid()
    }

    constructor ()
      ensures Valid() && fresh(repr) && items == map[] && view == map[]
    {
      items, view := map[], map[];
      repr := {this};
    }

    /** Take the item at k out. */
    method Take(k: Key) returns (s: Slot)
      requires Valid() && k in items
      modifies this
      ensures Valid() && Ready(s) && Footprint(s) !! repr && repr + Footprint(s) == old(repr)
      ensures s == old(items[k]) && items == old(items) - {k}
      ensures DataOf(s) == old(view[k]) && view == old(view) - {k}
    {
      ReadyAt(this, k);
      TreeWithout(this, items, view, repr, k);
      s := items[k];
      repr := repr - Footprint(s);
      items := items - {k};
      view := view - {k};
    }

    /** d[k] = s, for something that shares nothing with this object. */
    method Put(k: Key, s: Slot)
      requires Valid() && k !in items && Ready(s) && Footprint(s) !! repr
      modifies this
      ensures Valid() && repr == old(repr) + old(Footprint(s)) && items == old(items)[k := s]
      ensures view == old(view)[k := old(DataOf(s))]
    {
      TreeWith(this, items, view, repr, k, s);
      view := view[k := DataOf(s)];
      repr := repr + Footprint(s);
      items := items[k := s];
    }
  }

  lemma TreeWith(self: DictObject, items: map<Key, Slot>, view: map<Key, Data>, repr: set<object>, k: Key, s: Slot)
    requires Tree(self, items, view, repr) && k !in items && Ready(s) && Footprint(s) !! repr
    ensures Tree(self, items[k := s], view[k := DataOf(s)], repr + Footprint(s))
  {
    InFootprint(s);
    var more := items[k := s];
    forall i, j | i in more && j in more && i != j
      ensures AreApart(more[i], more[j])
    {
      if i != k && j != k {
        assert AreApart(items[i], items[j]);
      }
    }
  }

  lemma InFootprint(s: Slot)
    requires Ready(s)
    ensures Objects(s) <= Footprint(s)
  {}

  lemma TreeWithout(self: DictObject, items: map<Key, Slot>, view: map<Key, Data>, repr: set<object>, k: Key)
    requires Tree(self, items, view, repr) && k in items
    requires forall j | j in items :: Ready(items[j])
    ensures Tree(self, items - {k}, view - {k}, repr - Footprint(items[k]))
  {
    var f := Footprint(items[k]);
    forall j | j in items && j != k
      ensures Objects(items[j]) <= repr - f - {self} && Owned(self, repr - f, items[j], view[j])
    {
      InFootprint(items[j]);
      assert AreApart(items[j], items[k]);
    }
  }

  lemma ReadyAt(d: DictObject, k: Key)
    requires d.Valid() && k in d.items
    ensures Ready(d.items[k]) && Footprint(d.items[k]) <= d.repr && d !in Footprint(d.items[k]) && d in d.repr
    ensures k in d.view && DataOf(d.items[k]) == d.view[k]
    ensures forall j | j in d.items :: Ready(d.items[j])
  {}

  // ---------- deepcopy ----------

  /** The items of m whose keys are not in `todo`. */
  ghost function Part(m: map<Key, Data>, todo: set<Key>): map<Key, Data> {
    map k | k in m && k !in todo :: m[k]
  }

  lemma PartStep(m: map<Key, Data>, todo: set<Key>, k: Key)
    requires k in todo && k in m
    ensures Part(m, todo - {k}) == Part(m, todo)[k := m[k]] && k !in Part(m, todo)
  {}

  lemma PartEnds(m: map<Key, Data>)
    ensures Part(m, {}) == m && Part(m, m.Keys) == map[]
  {}

  /** c holds copies of the items of o whose keys are not in `todo`. */
  ghost predicate Copied(o: DictObject, c: DictObject, todo: set<Key>)
    reads o, o.repr, c, c.repr
  {
    match o.Valid() && c.Valid() && o.repr !! c.repr
    case true => todo <= o.items.Keys && c.view == Part(o.view, todo)
    case false => false
  }

  /** `deepcopy` of what is stored under a key. */
  method CopySlot(s: Slot) returns (c: Slot)
    requires Ready(s)
    ensures Ready(c) && fresh(Footprint(c)) && DataOf(c) == DataOf(s)
    decreases Footprint(s), 2
  {
    match s
    case Plain(_) => c := s;
    case Nested(o) =>
      var copy := DeepCopy(o);
      c := Nested(copy);
  }

  /** Copy one item. */
  method CopyItem(o: DictObject, k: Key, c: DictObject, ghost todo: set<Key>)
    requires Copied(o, c, todo) && k in todo
    modifies c
    ensures Copied(o, c, todo - {k}) && fresh(c.repr - old(c.repr))
    decreases o.repr, 0
  {
    PartStep(o.view, todo, k);
    var s := CopySlot(o.items[k]);
    assert k !in c.view;
    c.Put(k, s);
  }

  /** `deepcopy` of a dictionary. */
  method DeepCopy(o: DictObject) returns (c: DictObject)
    requires o.Valid()
    ensures c.Valid() && fresh(c.repr) && c.view == o.view
    decreases o.repr, 1
  {
    c := new DictObject();
    var todo := o.items.Keys;
    PartEnds(o.view);
    while todo != {}
      invariant Copied(o, c, todo) && fresh(c.repr) && todo <= o.items.Keys
      decreases todo
    {
      var k :| k in todo;
      CopyItem(o, k, c, todo);
      todo := todo - {k};
    }
  }

  /** The value of a dictionary, as iterating over it sees it. */
  method ValueOf(o: DictObject) returns (d: Data)
    requires o.Valid()
    ensures d == Dict(o.view)
    decreases o.repr
  {
    var m: map<Key, Data> := map[];
    var todo := o.items.Keys;
    PartEnds(o.view);
    while todo != {}
      invariant todo <= o.items.Keys && m == Part(o.view, todo)
      decreases todo
    {
      var k :| k in todo;
      PartStep(o.view, todo, k);
      match o.items[k] {
        case Plain(x) => m := m[k := x];
        case Nested(c) =>
          var x := ValueOf(c);
          m := m[k := x];
      }
      todo := todo - {k};
    }
    d := Dict(m);
  }

  // ---------- merge_into ----------

  /** What `merge_into` has made of d1 once only the keys in `todo` are left. */
  ghost predicate MergedUpTo(d1: map<Key, Data>, x: map<Key, Data>, y: map<Key, Data>, todo: set<Key>,
          extend: bool, iterate: Iteration) {
    && d1.Keys == x.Keys + (y.Keys - todo)
    && (forall k | k in x && (k !in y || k in todo) :: d1[k] == x[k])
    && (forall k | k in y && k !in todo ::
          if k in x then Merge(x[k], y[k], extend, iterate) == Some(d1[k]) else d1[k] == y[k])
  }

  lemma MergedEnds(d1: map<Key, Data>, x: map<Key, Data>, y: map<Key, Data>, extend: bool, iterate: Iteration)
    ensures MergedUpTo(x, x, y, y.Keys, extend, iterate)
    ensures MergedUpTo(d1, x, y, {}, extend, iterate) ==> Merge(Dict(x), Dict(y), extend, iterate) == Some(Dict(d1))
  {
    if MergedUpTo(d1, x, y, {}, extend, iterate) {
      assert Merge(Dict(x), Dict(y), extend, iterate).Some?;
      assert Merge(Dict(x), Dict(y), extend, iterate).value.m == d1;
    }
  }

  /** A list with a value appended that may be no list; None where it raises. */
  method ExtendList(xs: seq<Data>, y: Slot, iterate: Iteration) returns (r: Option<Data>)
    requires Ready(y)
    ensures r == Merge(List(xs), DataOf(y), true, iterate)
  {
    var value: Data;
    match y {
      case Plain(d) => value := d;
      case Nested(o) => value := ValueOf(o);
    }
    if value.List? {
      return Some(List(xs + value.xs));
    }
    var more := iterate(value);
    r := if more.None? then None else Some(List(xs + more.value));
  }

  /** r is something with the value d, or nothing if there is none. */
  ghost predicate Holds(r: Option<Slot>, d: Option<Data>)
    reads if r.Some? then Objects(r.value) + Footprint(r.value) else {}
  {
    match r
    case None => d.None?
    case Some(s) => Ready(s) && d == Some(DataOf(s))
  }

  /** What is stored at a key both dictionaries have, if they are not both dictionaries there. */
  method MergePlain(x: Slot, y: Slot, extend: bool, iterate: Iteration) returns (r: Option<Slot>)
    requires Ready(x) && Ready(y) && !(x.Nested? && y.Nested?)
    ensures Holds(r, Merge(DataOf(x), DataOf(y), extend, iterate))
    ensures r.Some? ==> fresh(Footprint(r.value))
    decreases Footprint(y), 4
  {
    if extend && x.Plain? && x.d.List? {
      var d := ExtendList(x.d.xs, y, iterate);
      return if d.None? then None else Some(Plain(d.value));
    }
    var copy := CopySlot(y);
    r := Some(copy);
  }

  /** What is stored at a key both dictionaries have. */
  method MergeSlot(x: Slot, y: Slot, extend: bool, iterate: Iteration) returns (r: Option<Slot>)
    requires Ready(x) && Ready(y) && Footprint(x) !! Footprint(y)
    modifies Footprint(x)
    ensures Ready(y) && DataOf(y) == old(DataOf(y)) && Footprint(y) == old(Footprint(y))
    ensures Holds(r, Merge(old(DataOf(x)), old(DataOf(y)), extend, iterate))
    ensures r.Some? ==> fresh(Footprint(r.value) - old(Footprint(x)))
    ensures r.None? ==> Ready(x) && fresh(Footprint(x) - old(Footprint(x)))
    decreases Footprint(y), 7
  {
    if x.Nested? && y.Nested? {
      var ok, _ := MergeInto(x.o, y.o, extend, iterate);
      r := if ok then Some(x) else None;
    } else {
      r := MergePlain(x, y, extend, iterate);
    }
  }

  /** Two dictionaries that share nothing. */
  ghost predicate Apart(d1: DictObject, d2: DictObject)
    reads d1, d1.repr, d2, d2.repr
  {
    match d1.repr !! d2.repr
    case true => d1.Valid() && d2.Valid()
    case false => false
  }

  /** The key is missing: store a copy. */
  method MergeMissing(d1: DictObject, k: Key, d2: DictObject)
    requires Apart(d1, d2) && k !in d1.items && k in d2.items
    modifies d1
    ensures Apart(d1, d2) && fresh(d1.repr - old(d1.repr)) && d1.view == old(d1.view)[k := d2.view[k]]
    decreases d2.repr, 0
  {
    var s := CopySlot(d2.items[k]);
    d1.Put(k, s);
  }

  /** Merge into what was taken out of d1. */
  method MergeApart(d1: DictObject, k: Key, s: Slot, d2: DictObject, extend: bool, iterate: Iteration)
    returns (r: Option<Slot>)
    requires Apart(d1, d2) && k in d2.items
    requires Ready(s) && Footprint(s) !! d1.repr && Footprint(s) !! d2.repr
    modifies Footprint(s)
    ensures Apart(d1, d2) && d1.view == old(d1.view) && d1.items == old(d1.items) && d1.repr == old(d1.repr)
    ensures d2.view == old(d2.view) && d2.items == old(d2.items) && d2.repr == old(d2.repr) && k in d2.view
    ensures Holds(r, Merge(old(DataOf(s)), d2.view[k], extend, iterate))
    ensures var t := if r.Some? then r.value else s;
      Ready(t) && fresh(Footprint(t) - old(Footprint(s))) && Footprint(t) !! d1.repr && Footprint(t) !! d2.repr
    decreases d2.repr, 0
  {
    ReadyAt(d2, k);
    r := MergeSlot(s, d2.items[k], extend, iterate);
  }

  /** Merge into what was taken out of d1, and store the result; if that raises, what was taken out goes
      back as the merge has left it. */
  method MergeTaken(d1: DictObject, k: Key, s: Slot, d2: DictObject, extend: bool, iterate: Iteration)
    returns (ok: bool)
    requires Apart(d1, d2) && k !in d1.items && k in d2.items
    requires Ready(s) && Footprint(s) !! d1.repr && Footprint(s) !! d2.repr
    modifies d1, Footprint(s)
    ensures d2.view == old(d2.view) && d2.items == old(d2.items) && d2.repr == old(d2.repr)
    ensures ok <==> Merge(old(DataOf(s)), d2.view[k], extend, iterate).Some?
    ensures Apart(d1, d2) && fresh(d1.repr - old(d1.repr) - old(Footprint(s)))
    ensures ok ==> d1.view == old(d1.view)[k := Merge(old(DataOf(s)), d2.view[k], extend, iterate).value]
    ensures !ok ==> k in d1.view && d1.view == old(d1.view)[k := d1.view[k]]
    decreases d2.repr, 1
  {
    var r := MergeApart(d1, k, s, d2, extend, iterate);
    ok := r.Some?;
    d1.Put(k, if ok then r.value else s);
  }

  /** The key is there: merge into what is stored, and store the result. */
  method MergePresent(d1: DictObject, k: Key, d2: DictObject, extend: bool, iterate: Iteration) returns (ok: bool)
    requires Apart(d1, d2) && k in d1.view && k in d2.view && k in d1.items && k in d2.items
    modifies d1.repr
    ensures d2.view == old(d2.view) && d2.items == old(d2.items) && d2.repr == old(d2.repr)
    ensures ok <==> Merge(old(d1.view[k]), d2.view[k], extend, iterate).Some?
    ensures Apart(d1, d2) && fresh(d1.repr - old(d1.repr))
    ensures ok ==> d1.view == old(d1.view)[k := Merge(old(d1.view[k]), d2.view[k], extend, iterate).value]
    ensures !ok ==> k in d1.view && d1.view == old(d1.view)[k := d1.view[k]]
    decreases d2.repr, 2
  {
    ghost var before := d1.view;
    var s := d1.Take(k);
    ok := MergeTaken(d1, k, s, d2, extend, iterate);
    PutBack(before, k, d1.view[k]);
  }

  lemma PutBack(m: map<Key, Data>, k: Key, d: Data)
    ensures (m - {k})[k := d] == m[k := d]
  {}

  lemma MergedStep(d1: map<Key, Data>, x: map<Key, Data>, y: map<Key, Data>, todo: set<Key>, k: Key, d: Data,
          extend: bool, iterate: Iteration)
    requires MergedUpTo(d1, x, y, todo, extend, iterate) && k in todo && k in y
    requires if k in d1 then Merge(d1[k], y[k], extend, iterate) == Some(d) else d == y[k]
    ensures MergedUpTo(d1[k := d], x, y, todo - {k}, extend, iterate)
    ensures (k in x <==> k in d1) && (k in x ==> x[k] == d1[k])
  {}

  /** d1 is what `merge_into` has made of x once only the keys in `todo` are left. */
  ghost predicate Merging(d1: DictObject, d2: DictObject, x: map<Key, Data>, todo: set<Key>, extend: bool,
          iterate: Iteration)
    reads d1, d1.repr, d2, d2.repr
  {
    match Apart(d1, d2)
    case true => todo <= d2.view.Keys && MergedUpTo(d1.view, x, d2.view, todo, extend, iterate)
    case false => false
  }

  /** Where a merge raises, if it does, and which keys are left then. */
  datatype Stop = Nowhere | Stop(k: Key, todo: set<Key>)

  /** The merge has raised: the keys that are not left are merged, the others are as before; what is stored
      at the key where it raised may be merged in part. */
  ghost predicate RaisedAt(d1: map<Key, Data>, x: map<Key, Data>, y: map<Key, Data>, stop: Stop, extend: bool,
          iterate: Iteration) {
    match stop
    case Nowhere => false
    case Stop(k, todo) =>
      && k in d1 && k in x && k in y && k in todo && Merge(x[k], y[k], extend, iterate).None?
      && MergedUpTo(d1[k := x[k]], x, y, todo, extend, iterate)
  }

  lemma RaisedStep(before: map<Key, Data>, d1: map<Key, Data>, x: map<Key, Data>, y: map<Key, Data>, k: Key,
          todo: set<Key>, extend: bool, iterate: Iteration)
    requires MergedUpTo(before, x, y, todo, extend, iterate) && k in todo && k in y && k in before && k in d1
    requires d1 == before[k := d1[k]] && Merge(before[k], y[k], extend, iterate).None?
    ensures RaisedAt(d1, x, y, Stop(k, todo), extend, iterate)
  {
    assert before[k] == x[k];
    assert d1[k := x[k]] == before;
  }

  method MergeItem(d1: DictObject, k: Key, d2: DictObject, extend: bool, iterate: Iteration, ghost x: map<Key,
          Data>, ghost todo: set<Key>) returns (ok: bool)
    requires Merging(d1, d2, x, todo, extend, iterate) && k in todo
    modifies d1.repr
    ensures d2.view == old(d2.view) && d2.items == old(d2.items) && d2.repr == old(d2.repr)
    ensures fresh(d1.repr - old(d1.repr))
    ensures ok ==> Merging(d1, d2, x, todo - {k}, extend, iterate)
    ensures !ok ==> Apart(d1, d2) && RaisedAt(d1.view, x, d2.view, Stop(k, todo), extend, iterate)
    decreases d2.repr, 3
  {
    ghost var before := d1.view;
    if k !in d1.items {
      MergeMissing(d1, k, d2);
      ok := true;
    } else {
      ok := MergePresent(d1, k, d2, extend, iterate);
    }
    if ok {
      MergedStep(before, x, d2.view, todo, k, d1.view[k], extend, iterate);
    } else {
      RaisedStep(before, d1.view, x, d2.view, k, todo, extend, iterate);
    }
  }

  lemma MergeRaises(d1: map<Key, Data>, x: map<Key, Data>, y: map<Key, Data>, stop: Stop, extend: bool,
          iterate: Iteration)
    requires RaisedAt(d1, x, y, stop, extend, iterate)
    ensures Merge(Dict(x), Dict(y), extend, iterate).None?
  {
    assert Dict(y).m[stop.k] == y[stop.k];
  }

  /** Where the loop of `merge_into` is: still going, or stopped by an exception. */
  ghost predicate MergedOrRaised(d1: DictObject, d2: DictObject, x: map<Key, Data>, todo: set<Key>, stop: Stop,
          extend: bool, iterate: Iteration)
    reads d1, d1.repr, d2, d2.repr
  {
    match stop
    case Nowhere => Merging(d1, d2, x, todo, extend, iterate)
    case Stop(_, _) => Apart(d1, d2) && RaisedAt(d1.view, x, d2.view, stop, extend, iterate)
  }

  /** One turn of the loop, for any key that is left. */
  method MergeTurn(d1: DictObject, d2: DictObject, extend: bool, iterate: Iteration, ghost x: map<Key, Data>,
          todo: set<Key>) returns (ok: bool, ghost stop: Stop, left: set<Key>)
    requires MergedOrRaised(d1, d2, x, todo, Nowhere, extend, iterate) && todo != {}
    modifies d1.repr
    ensures d2.view == old(d2.view) && d2.items == old(d2.items) && d2.repr == old(d2.repr)
    ensures fresh(d1.repr - old(d1.repr)) && left < todo && ok == stop.Nowhere?
    ensures MergedOrRaised(d1, d2, x, left, stop, extend, iterate)
    decreases d2.repr, 4
  {
    var k :| k in todo;
    ok := MergeItem(d1, k, d2, extend, iterate, x, todo);
    stop, left := if ok then Nowhere else Stop(k, todo), todo - {k};
  }

  /** The loop of `merge_into`. */
  method MergeLoop(d1: DictObject, d2: DictObject, extend: bool, iterate: Iteration, ghost x: map<Key, Data>)
    returns (ok: bool, ghost stop: Stop)
    requires Merging(d1, d2, x, d2.items.Keys, extend, iterate)
    modifies d1.repr
    ensures d2.view == old(d2.view) && d2.items == old(d2.items) && d2.repr == old(d2.repr)
    ensures fresh(d1.repr - old(d1.repr)) && ok == stop.Nowhere?
    ensures MergedOrRaised(d1, d2, x, {}, stop, extend, iterate)
    decreases d2.repr, 5
  {
    var todo := d2.items.Keys;
    stop, ok := Nowhere, true;
    while todo != {} && ok
      invariant fresh(d1.repr - old(d1.repr)) && ok == stop.Nowhere?
      invariant d2.view == old(d2.view) && d2.items == old(d2.items) && d2.repr == old(d2.repr)
      invariant MergedOrRaised(d1, d2, x, todo, stop, extend, iterate)
      decreases todo
    {
      ok, stop, todo := MergeTurn(d1, d2, extend, iterate, x, todo);
    }
  }

  lemma MergingStarts(d1: DictObject, d2: DictObject, extend: bool, iterate: Iteration)
    requires Apart(d1, d2)
    ensures Merging(d1, d2, d1.view, d2.items.Keys, extend, iterate)
  {
    MergedEnds(d1.view, d1.view, d2.view, extend, iterate);
  }

  lemma MergingEnds(d1: DictObject, d2: DictObject, x: map<Key, Data>, extend: bool, iterate: Iteration)
    requires Merging(d1, d2, x, {}, extend, iterate)
    ensures Apart(d1, d2) && Merge(Dict(x), Dict(d2.view), extend, iterate) == Some(Dict(d1.view))
  {
    MergedEnds(d1.view, x, d2.view, extend, iterate);
  }

  /** `merge_into`: the first dictionary object becomes the merge; the second is not changed. If it
      raises, the first is merged up to the key where it does. */
  method MergeInto(d1: DictObject, d2: DictObject, extend: bool, iterate: Iteration)
    returns (ok: bool, ghost stop: Stop)
    requires Apart(d1, d2)
    modifies d1.repr
    ensures d2.view == old(d2.view) && d2.items == old(d2.items) && d2.repr == old(d2.repr)
    ensures Apart(d1, d2) && fresh(d1.repr - old(d1.repr))
    ensures ok <==> Merge(Dict(old(d1.view)), Dict(old(d2.view)), extend, iterate).Some?
    ensures ok ==> Merge(Dict(old(d1.view)), Dict(old(d2.view)), extend, iterate) == Some(Dict(d1.view))
    ensures !ok ==> RaisedAt(d1.view, old(d1.view), d2.view, stop, extend, iterate)
    decreases d2.repr, 6
  {
    ghost var x := d1.view;
    MergingStarts(d1, d2, extend, iterate);
    ok, stop := MergeLoop(d1, d2, extend, iterate, x);
    if ok {
      MergingEnds(d1, d2, x, extend, iterate);
    } else {
      assert RaisedAt(d1.view, x, d2.view, stop, extend, iterate);
      MergeRaises(d1.view, x, d2.view, stop, extend, iterate);
    }
  }

  // ---------- deep_merge ----------

  ghost function Footprints(blocks: seq<DictObject>): (os: set<object>)
    reads blocks
    ensures forall b | b in blocks :: b.repr <= os
  {
    set b, o | b in blocks && o in b.repr :: o
  }

  /** The first dictionary shares nothing with the others; they may share with each other. */
  ghost predicate AllApart(first: DictObject, blocks: seq<DictObject>)
    reads first, first.repr, blocks, Footprints(blocks)
  {
    forall i | 0 <= i < |blocks| :: Apart(first, blocks[i])
  }

  ghost predicate HaveViews(blocks: seq<DictObject>, ds: seq<Data>)
    reads blocks
  {
    match |blocks| == |ds|
    case true => forall i | 0 <= i < |ds| :: ds[i] == Dict(blocks[i].view)
    case false => false
  }

  /** Merge the next block; all blocks stay as they are. */
  method MergeNext(first: DictObject, blocks: seq<DictObject>, i: nat, extend: bool, iterate: Iteration,
          ghost ds: seq<Data>) returns (ok: bool)
    requires AllApart(first, blocks) && HaveViews(blocks, ds) && i < |blocks|
    modifies first.repr
    ensures HaveViews(blocks, ds)
    ensures ok <==> Merge(Dict(old(first.view)), ds[i], extend, iterate).Some?
    ensures AllApart(first, blocks) && fresh(first.repr - old(first.repr))
    ensures ok ==> Merge(Dict(old(first.view)), ds[i], extend, iterate) == Some(Dict(first.view))
  {
    forall j | 0 <= j < |blocks|
      ensures Apart(first, blocks[j]) && blocks[j] in blocks[j].repr && blocks[j].repr !! first.repr
    {}
    ghost var stop;
    ok, stop := MergeInto(first, blocks[i], extend, iterate);
    forall j | 0 <= j < |blocks|
      ensures Apart(first, blocks[j]) == true
    {}
  }

  /** `deep_merge` with an initializer that shares nothing with the inputs: the inputs are not changed. */
  method DeepMergeInto(first: DictObject, blocks: seq<DictObject>, extend: bool, iterate: Iteration,
          ghost ds: seq<Data>)
    returns (ok: bool)
    requires AllApart(first, blocks) && HaveViews(blocks, ds)
    modifies first.repr
    ensures HaveViews(blocks, ds) && AllApart(first, blocks) && fresh(first.repr - old(first.repr))
    ensures ok <==> MergeAll(Dict(old(first.view)), ds, extend, iterate).Some?
    ensures ok ==> MergeAll(Dict(old(first.view)), ds, extend, iterate) == Some(Dict(first.view))
  {
    for i := 0 to |blocks|
      invariant AllApart(first, blocks) && HaveViews(blocks, ds) && fresh(first.repr - old(first.repr))
      invariant MergeAll(Dict(old(first.view)), ds, extend, iterate)
             == MergeAll(Dict(first.view), ds[i..], extend, iterate)
    {
      assert ds[i..][0] == ds[i] && ds[i..][1..] == ds[i + 1..];
      ok := MergeNext(first, blocks, i, extend, iterate, ds);
      if !ok {
        return;
      }
    }
    ok := true;
  }

  /** `deep_merge` without an initializer: the first input is the one that is merged into and returned;
      without inputs, nothing is. */
  method DeepMergeFirst(dicts: seq<DictObject>, extend: bool, iterate: Iteration, ghost ds: seq<Data>)
    returns (ok: bool, r: Option<DictObject>)
    requires dicts != [] ==> AllApart(dicts[0], dicts[1..]) && HaveViews(dicts[1..], ds)
    modifies if dicts != [] then dicts[0].repr else {}
    ensures dicts == [] ==> ok && r.None?
    ensures dicts != [] ==> HaveViews(dicts[1..], ds) && AllApart(dicts[0], dicts[1..])
    ensures dicts != [] ==> fresh(dicts[0].repr - old(dicts[0].repr))
    ensures dicts != [] ==> (ok <==> MergeAll(Dict(old(dicts[0].view)), ds, extend, iterate).Some?)
    ensures dicts != [] && ok ==>
      r == Some(dicts[0]) && MergeAll(Dict(old(dicts[0].view)), ds, extend, iterate) == Some(Dict(dicts[0].view))
  {
    if dicts == [] {
      return true, None;
    }
    ok := DeepMergeInto(dicts[0], dicts[1..], extend, iterate, ds);
    r := Some(dicts[0]);
  }
}
