/** The element container as it runs: the dictionary and the text index, changed together, over shared
    element objects. The results of the methods are those of module Containers. */
module ElementContainers {
  import opened Wrappers
  import opened DeepMerge
  import opened Containers

  class Element {
    var props: Props

    constructor (props: Props)
      ensures this.props == props
    {
      this.props := props;
    }
  }

  class ElementTypeContainer {
    var keys: seq<Key>
    var items: map<Key, Element>
    var index: map<Scalar, Element>

    ghost function Model(): Container<Element>
      reads this
    {
      Container(keys, items, index)
    }

    ghost function Elements(): set<Element>
      reads this
    {
      items.Values + index.Values
    }

    /** `heap` has the properties of the elements as they are. */
    ghost predicate Pictured(heap: map<Element, Props>)
      reads this, Elements()
    {
      match Covers(Model(), heap)
      case true =>
        && (forall k | k in items :: items[k] in Elements() && heap[items[k]] == items[k].props)
        && (forall s | s in index :: index[s] in Elements() && heap[index[s]] == index[s].props)
      case false => false
    }

    /** The same, leaving out e. */
    ghost predicate PicturedExcept(heap: map<Element, Props>, e: Element)
      reads this, Elements() - {e}
    {
      && Covers(Model(), heap)
      && (forall k | k in items && items[k] != e :: items[k] in Elements() && heap[items[k]] == items[k].props)
      && (forall s | s in index && index[s] != e :: index[s] in Elements() && heap[index[s]] == index[s].props)
    }

    lemma PictureWithout(heap: map<Element, Props>, e: Element)
      requires Pictured(heap)
      ensures PicturedExcept(heap, e)
    {}

    lemma PictureWith(heap: map<Element, Props>, e: Element)
      requires PicturedExcept(heap, e)
      ensures Pictured(heap[e := e.props])
    {}

    constructor ()
      ensures Model() == Container([], map[], map[])
    {
      keys, items, index := [], map[], map[];
    }

    /** `get` and `__getitem__` */
    method Get(key: Key) returns (r: Option<Element>)
      ensures r == GetItem(Model(), key)
    {
      var k := Transform(key);
      if k.Text? && String(k.s) in index {
        return Some(index[String(k.s)]);
      }
      r := if k in items then Some(items[k]) else None;
    }

    method GetIndexOf(key: Key, ghost heap: map<Element, Props>) returns (r: Option<Key>)
      requires Pictured(heap)
      ensures r == GetIndex(Model(), heap, key)
    {
      if key.Id? {
        return Some(key);
      }
      var e := Get(key);
      if e.None? {
        return None;
      }
      for i := 0 to |keys|
        invariant FirstEqual(Model(), heap, keys, e.value) == FirstEqual(Model(), heap, keys[i..], e.value)
      {
        assert keys[i..][0] == keys[i] && keys[i..][1..] == keys[i + 1..];
        if items[keys[i]].props == e.value.props {
          return Some(keys[i]);
        }
      }
      r := None;
    }

    /** `c[key] = e` */
    method Set(key: Key, e: Element)
      modifies this
      ensures Model() == SetItem(old(Model()), key, e, TextKey(e.props))
      ensures Elements() <= old(Elements()) + {e}
    {
      var k := Transform(key);
      if k !in items {
        keys := keys + [k];
      }
      items := items[k := e];
      var text := TextKey(e.props);
      if text.Some? {
        index := index[text.value := e];
      }
    }

    /** Drop the text entry of what is found under k. */
    method Unindex(k: Key, ghost heap: map<Element, Props>)
      requires Pictured(heap)
      modifies this`index
      ensures Model() == Unindexed(old(Model()), heap, k) && Pictured(heap)
    {
      var e := Get(k);
      if e.Some? {
        var text := TextKey(e.value.props);
        if text.Some? {
          index := index - {text.value};
        }
      }
    }

    /** `dict.__delitem__` */
    method Remove(k: Key, ghost heap: map<Element, Props>) returns (ok: bool)
      requires Pictured(heap)
      modifies this`keys, this`items
      ensures ok == (k in old(items)) && Pictured(heap)
      ensures Model() == if ok then Drop(old(Model()), k) else old(Model())
    {
      ok := k in items;
      if ok {
        keys := Without(keys, k);
        items := items - {k};
      }
    }

    /** `del c[key]`; false where it raises KeyError. */
    method Delete(key: Key, ghost heap: map<Element, Props>) returns (ok: bool)
      requires Pictured(heap)
      modifies this
      ensures (Model(), ok) == DelItem(old(Model()), heap, key) && Pictured(heap) && Elements() <= old(Elements())
    {
      DelItemElements(Model(), heap, key);
      var k := GetIndexOf(key, heap);
      if k.None? {
        return false;
      }
      Unindex(k.value, heap);
      ok := Remove(Transform(k.value), heap);
    }

    method SelectKeys(needle: Needle, ghost heap: map<Element, Props>) returns (selected: seq<Key>)
      requires Pictured(heap)
      ensures selected == Select(Model(), heap, needle)
    {
      if needle == One(Text("all")) || needle == One(Text("0")) {
        return keys;
      }
      var needles := if needle.Many? then needle.keys else [needle.key];
      selected := [];
      for i := 0 to |needles|
        invariant selected == Indices(Model(), heap, needles[..i])
      {
        var index := GetIndexOf(needles[i], heap);
        IndicesAppend(Model(), heap, needles[..i], needles[i]);
        assert needles[..i + 1] == needles[..i] + [needles[i]];
        if index.Some? {
          selected := selected + [index.value];
        }
      }
      assert needles[..|needles|] == needles;
    }
  
    /** Give e other properties. */
    method Change(e: Element, value: Props, ghost heap: map<Element, Props>) returns (ghost heap2: map<Element, Props>)
      requires Pictured(heap)
      modifies e
      ensures e.props == Merged(old(e.props), value)
      ensures heap2 == heap[e := e.props] && Pictured(heap2)
    {
      PictureWithout(heap, e);
      e.props := Merged(e.props, value);
      PictureWith(heap, e);
      heap2 := heap[e := e.props];
    }

    method Store(key: Key, e: Element, ghost heap: map<Element, Props>)
      requires Pictured(heap) && e in heap && heap[e] == e.props
      modifies this
      ensures Model() == SetItem(old(Model()), key, e, TextKey(heap[e])) && Pictured(heap)
      ensures Elements() <= old(Elements()) + {e}
    {
      Set(key, e);
    }

    /** One item of `deep_merge`. */
    method MergeOne(key: Key, value: Props, ghost heap: map<Element, Props>)
      returns (ghost spare: Element, ghost heap2: map<Element, Props>)
      requires Pictured(heap)
      modifies this, Elements()
      ensures World(Model(), heap2) == MergeItem(World(old(Model()), heap), key, value, spare)
      ensures GetItem(old(Model()), key).None? ==> fresh(spare) && spare !in heap
      ensures Pictured(heap2) && forall e | e in Elements() :: e in old(Elements()) || fresh(e)
    {
      var found := Get(key);
      match found
      case None =>
        var e := new Element(value);
        spare, heap2 := e, heap[e := value];
        Store(key, e, heap2);
      case Some(e) =>
        spare := e;
        heap2 := Change(e, value, heap);
        Store(key, e, heap2);
    }

    /** One turn of the loop of `deep_merge`. */
    method MergeNext(update: (Key, Props), ghost heap: map<Element, Props>, ghost w: World<Element>,
            ghost done: seq<(Key, Props)>, ghost spares: seq<Element>)
      returns (ghost spares2: seq<Element>, ghost heap2: map<Element, Props>)
      requires Pictured(heap) && MergedTo(w, done, spares, World(Model(), heap))
      modifies this, Elements()
      ensures Pictured(heap2) && MergedTo(w, done + [update], spares2, World(Model(), heap2))
      ensures forall e | e in Elements() :: e in old(Elements()) || fresh(e)
    {
      ghost var spare;
      spare, heap2 := MergeOne(update.0, update.1, heap);
      MergedToNext(w, done, spares, World(old(Model()), heap), update, spare);
      spares2 := spares + [spare];
    }

    /** `deep_merge` */
    method DeepMergeItems(updates: seq<(Key, Props)>, ghost heap: map<Element, Props>)
      returns (ghost spares: seq<Element>, ghost heap2: map<Element, Props>)
      requires Pictured(heap)
      modifies this, Elements()
      ensures |spares| == |updates|
      ensures World(Model(), heap2) == MergeItems(World(old(Model()), heap), updates, spares) && Pictured(heap2)
      ensures NewSpares(World(old(Model()), heap), updates, spares)
      ensures fresh(Elements() - old(Elements()))
    {
      ghost var w := World(Model(), heap);
      spares, heap2 := [], heap;
      for i := 0 to |updates|
        invariant Pictured(heap2) && MergedTo(w, updates[..i], spares, World(Model(), heap2))
        invariant forall e | e in Elements() :: e in old(Elements()) || fresh(e)
      {
        assert updates[..i + 1] == updates[..i] + [updates[i]];
        spares, heap2 := MergeNext(updates[i], heap2, w, updates[..i], spares);
      }
      assert updates[..|updates|] == updates;
      MergedToMeans(w, updates, spares, World(Model(), heap2));
    }

    /** One turn of the loop of `filter`. */
    method DeleteNext(i: Key, todo: set<Key>, wanted: set<Key>, ghost heap: map<Element, Props>,
            ghost c: Container<Element>, ghost order: seq<Key>)
      requires Covers(c, heap) && Pictured(heap) && Deleting(c, heap, order, todo, wanted, Model()) && i in todo
      modifies this
      ensures Pictured(heap) && Deleting(c, heap, order + [i], todo - {i}, wanted, Model())
    {
      DeletingNext(c, heap, order, todo, wanted, Model(), i);
      var _ := Delete(i, heap);
    }

    /** Delete what is not wanted, in whatever order. */
    method DeleteOthers(wanted: set<Key>, ghost heap: map<Element, Props>) returns (ghost order: seq<Key>)
      requires Pictured(heap)
      modifies this
      ensures Pictured(heap) && Covers(old(Model()), heap)
      ensures Deleting(old(Model()), heap, order, {}, wanted, Model())
    {
      ghost var c := Model();
      var todo := items.Keys - wanted;
      order := [];
      DeletingStarts(c, heap, wanted);
      while todo != {}
        invariant Pictured(heap) && Deleting(c, heap, order, todo, wanted, Model())
        decreases todo
      {
        var i :| i in todo;
        DeleteNext(i, todo, wanted, heap, c, order);
        order := order + [i];
        todo := todo - {i};
      }
    }

    /** `filter`: delete what is not selected. */
    method Filter(needle: Needle, ghost heap: map<Element, Props>)
      requires Pictured(heap)
      modifies this
      ensures Pictured(heap) && Elements() <= old(Elements())
      ensures exists order :: IsFiltered(old(Model()), heap, needle, order, Model())
      ensures Agrees(old(Model()), heap) && AllInPlace(old(Model()), heap) ==>
        var wanted := set k | k in Select(old(Model()), heap, needle);
        Agrees(Model(), heap) && keys == Kept(old(keys), wanted) && items == Restricted(old(items), wanted)
    {
      var selected := SelectKeys(needle, heap);
      var wanted := set k | k in selected;
      ghost var order := DeleteOthers(wanted, heap);
      DeletingEnds(old(Model()), heap, order, wanted, Model());
      assert IsFiltered(old(Model()), heap, needle, order, Model());
      DeleteAllElements(old(Model()), heap, order);
      if Agrees(old(Model()), heap) && AllInPlace(old(Model()), heap) {
        FilterKeepsSelected(old(Model()), heap, wanted, order);
      }
    }
  }

  /** `d` is `c` after all keys that `needle` does not select were deleted in some order. */
  ghost predicate IsFiltered(c: Container<Element>, heap: map<Element, Props>, needle: Needle, order: seq<Key>,
          d: Container<Element>)
    requires Covers(c, heap)
  {
    Rejects(order, c.items.Keys, set k | k in Select(c, heap, needle)) && d == DeleteAll(c, heap, order)
  }
}
