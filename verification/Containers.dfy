/** The element container of paradox/data/element_type_container.py: a dictionary of elements with a
    second index by text key that points at the same element objects. */
module Containers {
  import opened Wrappers
  import opened DeepMerge

  /** The properties of an element. */
  type Props = map<Key, Data>

  const KEY := Text("key")

  // ---------- keys ----------

  predicate IsDigit(s: string) {
    s != "" && forall i | 0 <= i < |s| :: '0' <= s[i] <= '9'
  }

  function ToInt(s: string): nat
    requires forall i | 0 <= i < |s| :: '0' <= s[i] <= '9'
  {
    if s == "" then 0 else ToInt(s[..|s| - 1]) * 10 + (s[|s| - 1] as nat - '0' as nat)
  }

  /** `__keytransform__`: text that is all digits stands for the number. */
  function Transform(k: Key): Key {
    if k.Text? && IsDigit(k.s) then Id(ToInt(k.s)) else k
  }

  /** What an element is indexed by: its property "key". */
  function TextKey(p: Props): Option<Scalar> {
    if KEY in p && p[KEY].Leaf? then Some(p[KEY].v) else None
  }

  // ---------- the container on values ----------

  /** Elements are identities; `heap` maps them to their properties. Keys are in insertion order. */
  datatype Container<E> = Container(keys: seq<Key>, items: map<Key, E>, index: map<Scalar, E>)

  predicate Covers<E>(c: Container<E>, heap: map<E, Props>) {
    && (forall k | k in c.keys :: k in c.items)
    && (forall k | k in c.items :: k in c.keys && c.items[k] in heap)
    && (forall s | s in c.index :: c.index[s] in heap)
  }

  /** `__getitem__`; None for KeyError. */
  function GetItem<E>(c: Container<E>, key: Key): Option<E> {
    var k := Transform(key);
    if k.Text? && String(k.s) in c.index then Some(c.index[String(k.s)])
    else if k in c.items then Some(c.items[k])
    else None
  }

  /** The first key whose element equals e, by value. */
  function FirstEqual<E>(c: Container<E>, heap: map<E, Props>, keys: seq<Key>, e: E): (r: Option<Key>)
    requires Covers(c, heap) && e in heap && forall k | k in keys :: k in c.items
    ensures r.Some? ==> r.value in keys && heap[c.items[r.value]] == heap[e]
    ensures r.None? ==> forall k | k in keys :: heap[c.items[k]] != heap[e]
  {
    if keys == [] then None
    else if heap[c.items[keys[0]]] == heap[e] then Some(keys[0])
    else FirstEqual(c, heap, keys[1..], e)
  }

  /** `get_index`: numbers are taken as they are, even if no element has them. */
  function GetIndex<E>(c: Container<E>, heap: map<E, Props>, key: Key): Option<Key>
    requires Covers(c, heap)
  {
    if key.Id? then Some(key)
    else
      match GetItem(c, key)
      case None => None
      case Some(e) => FirstEqual(c, heap, c.keys, e)
  }

  /** `__setitem__` of an element with this text key. */
  function SetItem<E>(c: Container<E>, key: Key, e: E, text: Option<Scalar>): Container<E> {
    var k := Transform(key);
    Container(if k in c.items then c.keys else c.keys + [k], c.items[k := e],
              if text.Some? then c.index[text.value := e] else c.index)
  }

  function Without(keys: seq<Key>, k: Key): (r: seq<Key>)
    ensures forall j :: j in r <==> j in keys && j != k
  {
    if keys == [] then []
    else if keys[0] == k then Without(keys[1..], k)
    else [keys[0]] + Without(keys[1..], k)
  }

  function Drop<E>(c: Container<E>, k: Key): Container<E> {
    c.(keys := Without(c.keys, k), items := c.items - {k})
  }

  /** The first half of `__delitem__`: drop the text entry of what is found under k. */
  function Unindexed<E>(c: Container<E>, heap: map<E, Props>, k: Key): Container<E>
    requires Covers(c, heap)
  {
    var e := GetItem(c, k);
    if e.Some? && TextKey(heap[e.value]).Some? then c.(index := c.index - {TextKey(heap[e.value]).value}) else c
  }

  /** `__delitem__`; the flag is false where it raises KeyError. */
  function DelItem<E>(c: Container<E>, heap: map<E, Props>, key: Key): (Container<E>, bool)
    requires Covers(c, heap)
  {
    match GetIndex(c, heap, key)
    case None => (c, false)
    case Some(k) =>
      if Transform(k) in c.items then (Drop(Unindexed(c, heap, k), Transform(k)), true)
      else (Unindexed(c, heap, k), false)
  }

  // ---------- the index agrees with the dictionary ----------

  /** Every key once, and every element under one key. */
  ghost predicate Sound<E>(c: Container<E>, heap: map<E, Props>) {
    && Covers(c, heap)
    && (forall i, j | 0 <= i < j < |c.keys| :: c.keys[i] != c.keys[j])
    && (forall k | k in c.items :: Transform(k) == k)
    && (forall j, k | j in c.items && k in c.items && j != k :: c.items[j] != c.items[k])
  }

  /** No text entry points to an element that is gone or has another text key. */
  ghost predicate EntriesLive<E>(c: Container<E>, heap: map<E, Props>)
    requires Covers(c, heap)
  {
    forall s | s in c.index ::
      (exists k | k in c.items :: c.items[k] == c.index[s]) && TextKey(heap[c.index[s]]) == Some(s)
  }

  /** Every element with a text key is found by it. */
  ghost predicate AllIndexed<E>(c: Container<E>, heap: map<E, Props>)
    requires Covers(c, heap)
  {
    forall k | k in c.items && TextKey(heap[c.items[k]]).Some? ::
      var s := TextKey(heap[c.items[k]]).value;
      s in c.index && c.index[s] == c.items[k]
  }

  /** Text keys are no numbers, and no other element's place. */
  ghost predicate TextsPlain<E>(c: Container<E>) {
    && (forall s | s in c.index && s.String? ::
          !IsDigit(s.s) && (Text(s.s) in c.items ==> c.items[Text(s.s)] == c.index[s]))
    && (forall s | s in c.index && s.Number? :: Id(s.n) in c.items && c.items[Id(s.n)] == c.index[s])
  }

  /** Distinct text keys that are no numbers, each indexed to its own element; no entry for anything else. */
  ghost predicate Agrees<E>(c: Container<E>, heap: map<E, Props>) {
    Sound(c, heap) && EntriesLive(c, heap) && AllIndexed(c, heap) && TextsPlain(c)
  }

  /** Lookup by id and by text key return the same element object. */
  lemma LookupsAgree<E>(c: Container<E>, heap: map<E, Props>, k: Key, t: string)
    requires Agrees(c, heap) && k in c.items && TextKey(heap[c.items[k]]) == Some(String(t))
    ensures GetItem(c, k) == Some(c.items[k]) && GetItem(c, Text(t)) == Some(c.items[k])
    ensures GetIndex(c, heap, Text(t)) == Some(k)
  {
    var e := c.items[k];
    assert String(t) in c.index && c.index[String(t)] == e;
    var found := FirstEqual(c, heap, c.keys, e);
    assert k in c.keys;
    var j := found.value;
    assert TextKey(heap[c.items[j]]) == Some(String(t));
    assert c.items[j] == e;
  }

  /** What the element stored under k by `c[key] = e` must be like for the index to stay right: it stands
      nowhere else, its text key is no number, not that of another element and not the place of another
      element; an element it replaces had no other text key; and the place is no other element's text key. */
  ghost predicate Fits<E>(c: Container<E>, heap: map<E, Props>, k: Key, e: E)
    requires Covers(c, heap) && e in heap
  {
    var text := TextKey(heap[e]);
    && (forall j | j in c.items && j != k :: c.items[j] != e)
    && (text.Some? ==> forall j | j in c.items && j != k :: TextKey(heap[c.items[j]]) != text)
    && (text.Some? && text.value.String? ==>
          !IsDigit(text.value.s) && (Text(text.value.s) in c.items ==> k == Text(text.value.s)))
    && (text.Some? && text.value.Number? ==> k == Id(text.value.n))
    && (k in c.items && TextKey(heap[c.items[k]]).Some? ==> TextKey(heap[c.items[k]]) == text)
    && (k.Text? ==> forall j | j in c.items && j != k :: TextKey(heap[c.items[j]]) != Some(String(k.s)))
    && (k.Id? ==> forall j | j in c.items && j != k :: TextKey(heap[c.items[j]]) != Some(Number(k.n)))
  }

  /** `c[key] = e` keeps the index right exactly if e fits. */
  lemma SetItemAgreesIff<E>(c: Container<E>, heap: map<E, Props>, key: Key, e: E)
    requires Agrees(c, heap) && e in heap
    ensures Agrees(SetItem(c, key, e, TextKey(heap[e])), heap) <==> Fits(c, heap, Transform(key), e)
  {
    if Fits(c, heap, Transform(key), e) {
      SetItemAgrees(c, heap, key, e);
    } else if Agrees(SetItem(c, key, e, TextKey(heap[e])), heap) {
      AgreesFits(c, heap, key, e);
    }
  }

  lemma TransformTwice(k: Key)
    ensures Transform(Transform(k)) == Transform(k)
  {}

  lemma SetItemSound<E>(c: Container<E>, heap: map<E, Props>, key: Key, e: E)
    requires Sound(c, heap) && e in heap
    ensures Covers(SetItem(c, key, e, TextKey(heap[e])), heap)
    ensures Sound(SetItem(c, key, e, TextKey(heap[e])), heap)
      <==> forall j | j in c.items && j != Transform(key) :: c.items[j] != e
  {
    var k := Transform(key);
    var d := SetItem(c, key, e, TextKey(heap[e]));
    TransformTwice(key);
    assert k in d.items && d.items[k] == e;
    assert forall j | j in c.items && j != k :: j in d.items && d.items[j] == c.items[j];
  }

  lemma SetItemEntriesLive<E>(c: Container<E>, heap: map<E, Props>, key: Key, e: E)
    requires Agrees(c, heap) && e in heap && Fits(c, heap, Transform(key), e)
    requires Covers(SetItem(c, key, e, TextKey(heap[e])), heap)
    ensures EntriesLive(SetItem(c, key, e, TextKey(heap[e])), heap)
  {
    var k := Transform(key);
    var d := SetItem(c, key, e, TextKey(heap[e]));
    assert k in d.items && d.items[k] == e;
    forall s | s in d.index
      ensures exists j :: j in d.items && d.items[j] == d.index[s]
    {
      if d.index[s] != e {
        var j :| j in c.items && c.items[j] == c.index[s];
        assert j in d.items && d.items[j] == d.index[s];
      }
    }
  }

  lemma SetItemAgrees<E>(c: Container<E>, heap: map<E, Props>, key: Key, e: E)
    requires Agrees(c, heap) && e in heap && Fits(c, heap, Transform(key), e)
    ensures Agrees(SetItem(c, key, e, TextKey(heap[e])), heap)
  {
    SetItemSound(c, heap, key, e);
    SetItemEntriesLive(c, heap, key, e);
    SetItemTextsPlain(c, heap, key, e);
    var d := SetItem(c, key, e, TextKey(heap[e]));
    assert AllIndexed(d, heap);
  }

  lemma SetItemTextsPlain<E>(c: Container<E>, heap: map<E, Props>, key: Key, e: E)
    requires Agrees(c, heap) && e in heap && Fits(c, heap, Transform(key), e)
    ensures TextsPlain(SetItem(c, key, e, TextKey(heap[e])))
  {}

  lemma AgreesFits<E>(c: Container<E>, heap: map<E, Props>, key: Key, e: E)
    requires Agrees(c, heap) && e in heap && Agrees(SetItem(c, key, e, TextKey(heap[e])), heap)
    ensures Fits(c, heap, Transform(key), e)
  {
    SetItemSound(c, heap, key, e);
    TextsApart(c, heap, key, e);
    PlaceIsPlain(c, heap, key, e);
    ReplacedText(c, heap, key, e);
  }

  lemma PlaceIsPlain<E>(c: Container<E>, heap: map<E, Props>, key: Key, e: E)
    requires Sound(c, heap) && e in heap && TextsPlain(SetItem(c, key, e, TextKey(heap[e])))
    requires forall j | j in c.items && j != Transform(key) :: c.items[j] != e
    ensures var text, k := TextKey(heap[e]), Transform(key);
      && (text.Some? && text.value.String? ==>
            !IsDigit(text.value.s) && (Text(text.value.s) in c.items ==> k == Text(text.value.s)))
      && (text.Some? && text.value.Number? ==> k == Id(text.value.n))
  {
    var d := SetItem(c, key, e, TextKey(heap[e]));
    if TextKey(heap[e]).Some? {
      assert TextKey(heap[e]).value in d.index && d.index[TextKey(heap[e]).value] == e;
    }
  }

  lemma ReplacedText<E>(c: Container<E>, heap: map<E, Props>, key: Key, e: E)
    requires Agrees(c, heap) && e in heap && Agrees(SetItem(c, key, e, TextKey(heap[e])), heap)
    requires forall j | j in c.items && j != Transform(key) :: c.items[j] != e
    ensures var k := Transform(key);
      k in c.items && TextKey(heap[c.items[k]]).Some? ==> TextKey(heap[c.items[k]]) == TextKey(heap[e])
  {
    var k, d := Transform(key), SetItem(c, key, e, TextKey(heap[e]));
    if k in c.items && TextKey(heap[c.items[k]]).Some? {
      var s := TextKey(heap[c.items[k]]).value;
      assert s in c.index && c.index[s] == c.items[k];
      assert s in d.index;
    }
  }

  lemma TextsApart<E>(c: Container<E>, heap: map<E, Props>, key: Key, e: E)
    requires Agrees(c, heap) && e in heap && Agrees(SetItem(c, key, e, TextKey(heap[e])), heap)
    ensures var k := Transform(key);
      forall j | j in c.items && j != k && TextKey(heap[c.items[j]]).Some? ::
        && TextKey(heap[c.items[j]]) != TextKey(heap[e])
        && (k.Text? ==> TextKey(heap[c.items[j]]) != Some(String(k.s)))
        && (k.Id? ==> TextKey(heap[c.items[j]]) != Some(Number(k.n)))
  {
    var k := Transform(key);
    var d := SetItem(c, key, e, TextKey(heap[e]));
    assert k in d.items && d.items[k] == e;
    assert forall j | j in c.items && j != k :: j in d.items && d.items[j] == c.items[j];
  }

  // ---------- deletion ----------

  lemma FoundAtPlace<E>(c: Container<E>, heap: map<E, Props>, k: Key)
    requires Agrees(c, heap) && k in c.items
    ensures GetItem(c, k) == Some(c.items[k]) && Transform(k) == k
  {}

  /** The container without the item at k and its text entry. */
  function Removed<E>(c: Container<E>, heap: map<E, Props>, k: Key): Container<E>
    requires Covers(c, heap) && k in c.items
  {
    var text := TextKey(heap[c.items[k]]);
    Drop(if text.Some? then c.(index := c.index - {text.value}) else c, k)
  }

  lemma WithoutOnce(keys: seq<Key>, k: Key)
    requires forall i, j | 0 <= i < j < |keys| :: keys[i] != keys[j]
    ensures forall i, j | 0 <= i < j < |Without(keys, k)| :: Without(keys, k)[i] != Without(keys, k)[j]
  {
    if keys != [] {
      assert forall i, j | 0 <= i < j < |keys[1..]| :: keys[1..][i] == keys[i + 1] && keys[1..][j] == keys[j + 1];
      WithoutOnce(keys[1..], k);
      assert keys[0] !in keys[1..];
    }
  }

  lemma DropAgrees<E>(c: Container<E>, heap: map<E, Props>, k: Key)
    requires Agrees(c, heap) && k in c.items
    ensures Agrees(Removed(c, heap, k), heap)
    ensures forall s | s in Removed(c, heap, k).index :: Removed(c, heap, k).index[s] != c.items[k]
  {
    var d := Removed(c, heap, k);
    WithoutOnce(c.keys, k);
    assert Sound(d, heap);
    forall s | s in d.index
      ensures exists j :: j in d.items && d.items[j] == d.index[s]
    {
      var j :| j in c.items && c.items[j] == c.index[s];
      assert j in d.items && d.items[j] == d.index[s];
    }
  }

  lemma DelItemIsRemoved<E>(c: Container<E>, heap: map<E, Props>, key: Key)
    requires Agrees(c, heap)
    ensures var k := GetIndex(c, heap, key);
      DelItem(c, heap, key) == if k.Some? && k.value in c.items then (Removed(c, heap, k.value), true) else (c, false)
  {
    var found := GetIndex(c, heap, key);
    if found.Some? {
      if found.value in c.items {
        FoundAtPlace(c, heap, found.value);
      } else {
        assert found.value.Id?;
      }
    }
  }

  /** `del c[key]` removes the item at the index that `get_index` finds, with its text entry, and
      nothing else; it raises, and changes nothing, exactly if there is no such item. */
  lemma DelItemAgrees<E>(c: Container<E>, heap: map<E, Props>, key: Key)
    requires Agrees(c, heap)
    ensures Agrees(DelItem(c, heap, key).0, heap)
    ensures var k, r := GetIndex(c, heap, key), DelItem(c, heap, key);
      if k.None? || k.value !in c.items then r == (c, false)
      else r.1 && r.0.keys == Without(c.keys, k.value) && r.0.items == c.items - {k.value}
           && forall s | s in r.0.index :: r.0.index[s] != c.items[k.value]
  {
    DelItemIsRemoved(c, heap, key);
    var found := GetIndex(c, heap, key);
    if found.Some? && found.value in c.items {
      DropAgrees(c, heap, found.value);
    }
  }

  // ---------- elements of equal value ----------

  lemma {:induction false} FirstEqualAt<E>(c: Container<E>, heap: map<E, Props>, keys: seq<Key>, e: E, n: nat)
    requires Covers(c, heap) && e in heap && (forall k | k in keys :: k in c.items)
    requires n < |keys| && heap[c.items[keys[n]]] == heap[e]
    requires forall i | 0 <= i < n :: heap[c.items[keys[i]]] != heap[e]
    ensures FirstEqual(c, heap, keys, e) == Some(keys[n])
  {
    if n > 0 {
      assert heap[c.items[keys[0]]] != heap[e];
      assert forall i | 0 <= i < n - 1 :: keys[1..][i] == keys[i + 1];
      FirstEqualAt(c, heap, keys[1..], e, n - 1);
    }
  }

  /** `get_index` finds the place of the element that a text key names exactly if no item before it has
      an equal value: elements are compared by value, not by identity. */
  lemma IndexIsPlaceIff<E>(c: Container<E>, heap: map<E, Props>, key: Key, n: nat)
    requires Agrees(c, heap) && key.Text? && n < |c.keys| && GetItem(c, key) == Some(c.items[c.keys[n]])
    ensures GetIndex(c, heap, key) == Some(c.keys[n])
      <==> forall i | 0 <= i < n :: heap[c.items[c.keys[i]]] != heap[c.items[c.keys[n]]]
  {
    var e := c.items[c.keys[n]];
    if forall i | 0 <= i < n :: heap[c.items[c.keys[i]]] != heap[e] {
      FirstEqualAt(c, heap, c.keys, e, n);
    } else {
      var i :| 0 <= i < n && heap[c.items[c.keys[i]]] == heap[e];
      FirstEqualEarlier(c, heap, c.keys, e, i, c.keys[n]);
    }
  }

  lemma {:induction false} FirstEqualEarlier<E>(c: Container<E>, heap: map<E, Props>, keys: seq<Key>, e: E,
          i: nat, k: Key)
    requires Covers(c, heap) && e in heap && (forall k | k in keys :: k in c.items)
    requires i < |keys| && heap[c.items[keys[i]]] == heap[e] && k !in keys[..i + 1]
    ensures FirstEqual(c, heap, keys, e) != Some(k)
  {
    assert keys[0] == keys[..i + 1][0];
    if heap[c.items[keys[0]]] != heap[e] {
      assert keys[1..][..i] == keys[..i + 1][1..];
      FirstEqualEarlier(c, heap, keys[1..], e, i - 1, k);
    }
  }

  function Twins(): Container<int> {
    Container([Text("a"), Text("b")], map[Text("a") := 1, Text("b") := 2], map[])
  }

  lemma TwinsAgree(heap: map<int, Props>)
    requires heap == map[1 := map[], 2 := map[]]
    ensures Agrees(Twins(), heap)
  {
    assert !IsDigit("a") && !IsDigit("b") by {
      assert "a"[0] == 'a' && "b"[0] == 'b';
    }
    assert AllIndexed(Twins(), heap) && EntriesLive(Twins(), heap);
  }

  /** So deleting one of two elements without text keys and of equal value can delete the other. */
  lemma DeletesTheTwin(heap: map<int, Props>)
    requires heap == map[1 := map[], 2 := map[]]
    ensures Agrees(Twins(), heap)
    ensures DelItem(Twins(), heap, Text("b")).1 && Text("b") in DelItem(Twins(), heap, Text("b")).0.items
  {
    TwinsAgree(heap);
    FirstEqualAt(Twins(), heap, Twins().keys, 2, 0);
    DelItemAgrees(Twins(), heap, Text("b"));
  }

  // ---------- select and filter ----------

  /** One text or number, or several (a list, a set or a range). */
  datatype Needle = One(key: Key) | Many(keys: seq<Key>)

  /** The indices of the needles that are found, in order. */
  function Indices<E>(c: Container<E>, heap: map<E, Props>, needles: seq<Key>): seq<Key>
    requires Covers(c, heap)
  {
    if needles == [] then []
    else
      (match GetIndex(c, heap, needles[0])
       case None => []
       case Some(k) => [k]) + Indices(c, heap, needles[1..])
  }

  /** `select` */
  function Select<E>(c: Container<E>, heap: map<E, Props>, needle: Needle): seq<Key>
    requires Covers(c, heap)
  {
    if needle == One(Text("all")) || needle == One(Text("0")) then c.keys
    else Indices(c, heap, if needle.Many? then needle.keys else [needle.key])
  }

  lemma {:induction false} IndicesAppend<E>(c: Container<E>, heap: map<E, Props>, needles: seq<Key>, last: Key)
    requires Covers(c, heap)
    ensures Indices(c, heap, needles + [last]) == Indices(c, heap, needles) + Indices(c, heap, [last])
  {
    if needles == [] {
      assert [] + [last] == [last];
      assert [] + Indices(c, heap, [last]) == Indices(c, heap, [last]);
    } else {
      var first := match GetIndex(c, heap, needles[0]) case None => [] case Some(k) => [k];
      assert (needles + [last])[1..] == needles[1..] + [last];
      IndicesAppend(c, heap, needles[1..], last);
      assert first + (Indices(c, heap, needles[1..]) + Indices(c, heap, [last]))
          == (first + Indices(c, heap, needles[1..])) + Indices(c, heap, [last]);
    }
  }

  /** Every item is where `get_index` looks for it: numbers always are. */
  predicate AllInPlace<E>(c: Container<E>, heap: map<E, Props>)
    requires Covers(c, heap)
  {
    forall k | k in c.items :: GetIndex(c, heap, k) == Some(k)
  }

  /** Numbered items are in place, and so are items with text keys. */
  lemma InPlace<E>(c: Container<E>, heap: map<E, Props>)
    requires Agrees(c, heap)
    requires forall k | k in c.items :: k.Id? || TextKey(heap[c.items[k]]).Some?
    ensures AllInPlace(c, heap)
  {
    forall k | k in c.items && k.Text?
      ensures GetIndex(c, heap, k) == Some(k)
    {
      var e := c.items[k];
      FoundAtPlace(c, heap, k);
      var j := FirstEqual(c, heap, c.keys, e).value;
      assert TextKey(heap[c.items[j]]) == TextKey(heap[e]);
      assert c.items[j] == e;
    }
  }

  /** The keys of a sequence that are in a set, in order. */
  function Kept(keys: seq<Key>, wanted: set<Key>): (r: seq<Key>)
    ensures forall k :: k in r <==> k in keys && k in wanted
  {
    if keys == [] then []
    else (if keys[0] in wanted then [keys[0]] else []) + Kept(keys[1..], wanted)
  }

  lemma {:induction false} KeptWithout(keys: seq<Key>, k: Key, wanted: set<Key>)
    requires k !in wanted
    ensures Kept(Without(keys, k), wanted) == Kept(keys, wanted)
  {
    if keys != [] {
      KeptWithout(keys[1..], k, wanted);
      if keys[0] != k {
        assert Without(keys, k)[1..] == Without(keys[1..], k);
      }
    }
  }

  lemma {:induction false} KeptAll(keys: seq<Key>, wanted: set<Key>)
    requires forall k | k in keys :: k in wanted
    ensures Kept(keys, wanted) == keys
  {
    if keys != [] {
      KeptAll(keys[1..], wanted);
    }
  }

  lemma {:induction false} FirstEqualWithout<E>(c: Container<E>, d: Container<E>, heap: map<E, Props>,
          keys: seq<Key>, e: E, j: Key, k: Key)
    requires Covers(c, heap) && Covers(d, heap) && e in heap && j != k && d.items == c.items - {k}
    requires forall i | i in keys :: i in c.items
    requires FirstEqual(c, heap, keys, e) == Some(j)
    ensures forall i | i in Without(keys, k) :: i in d.items
    ensures FirstEqual(d, heap, Without(keys, k), e) == Some(j)
  {
    if keys[0] == k {
      FirstEqualWithout(c, d, heap, keys[1..], e, j, k);
    } else if heap[c.items[keys[0]]] != heap[e] {
      FirstEqualWithout(c, d, heap, keys[1..], e, j, k);
      assert Without(keys, k)[1..] == Without(keys[1..], k);
    } else {
      assert keys[0] == j;
    }
  }

  lemma RemovedInPlace<E>(c: Container<E>, heap: map<E, Props>, k: Key)
    requires Agrees(c, heap) && AllInPlace(c, heap) && k in c.items
    ensures Agrees(Removed(c, heap, k), heap) && AllInPlace(Removed(c, heap, k), heap)
  {
    DropAgrees(c, heap, k);
    var d := Removed(c, heap, k);
    forall j | j in d.items && j.Text?
      ensures GetIndex(d, heap, j) == Some(j)
    {
      FoundAtPlace(c, heap, j);
      FoundAtPlace(d, heap, j);
      FirstEqualWithout(c, d, heap, c.keys, c.items[j], j, k);
    }
  }

  /** Delete one key after another, passing over those that raise. */
  function DeleteAll<E>(c: Container<E>, heap: map<E, Props>, order: seq<Key>): (r: Container<E>)
    requires Covers(c, heap)
    decreases |order|
  {
    if order == [] then c
    else
      DelItemCovers(c, heap, order[0]);
      DeleteAll(DelItem(c, heap, order[0]).0, heap, order[1..])
  }

  function ElementsOf<E>(c: Container<E>): set<E> {
    c.items.Values + c.index.Values
  }

  /** A deletion adds no element. */
  lemma DelItemElements<E>(c: Container<E>, heap: map<E, Props>, key: Key)
    requires Covers(c, heap)
    ensures ElementsOf(DelItem(c, heap, key).0) <= ElementsOf(c)
  {}

  lemma {:induction false} DeleteAllElements<E>(c: Container<E>, heap: map<E, Props>, order: seq<Key>)
    requires Covers(c, heap)
    ensures ElementsOf(DeleteAll(c, heap, order)) <= ElementsOf(c)
    decreases |order|
  {
    if order != [] {
      DelItemCovers(c, heap, order[0]);
      DelItemElements(c, heap, order[0]);
      DeleteAllElements(DelItem(c, heap, order[0]).0, heap, order[1..]);
    }
  }

  lemma DelItemCovers<E>(c: Container<E>, heap: map<E, Props>, key: Key)
    requires Covers(c, heap)
    ensures Covers(DelItem(c, heap, key).0, heap)
  {}

  /** `order` lists, once each, the keys that are not wanted. */
  predicate Rejects(order: seq<Key>, keys: set<Key>, wanted: set<Key>) {
    && (forall k | k in order :: k in keys && k !in wanted)
    && (forall k | k in keys && k !in wanted :: k in order)
    && (forall i, j | 0 <= i < j < |order| :: order[i] != order[j])
  }

  lemma RejectsNext(order: seq<Key>, keys: set<Key>, wanted: set<Key>)
    requires Rejects(order, keys, wanted) && order != []
    ensures order[0] in keys && order[0] !in wanted && Rejects(order[1..], keys - {order[0]}, wanted)
  {
    assert forall k | k in order :: k == order[0] || k in order[1..];
    assert forall i, j | 0 <= i < j < |order[1..]| :: order[1..][i] == order[i + 1] && order[1..][j] == order[j + 1];
  }

  lemma RejectsAppend(order: seq<Key>, keys: set<Key>, todo: set<Key>, k: Key, wanted: set<Key>)
    requires Rejects(order, keys - todo, wanted) && k in todo && todo <= keys && k !in wanted
    ensures Rejects(order + [k], keys - (todo - {k}), wanted)
  {
    assert k in order + [k];
  }

  /** The keys in `todo` are left to delete. */
  ghost predicate Deleting<E>(c: Container<E>, heap: map<E, Props>, order: seq<Key>, todo: set<Key>,
          wanted: set<Key>, now: Container<E>)
    requires Covers(c, heap)
  {
    match todo <= c.items.Keys - wanted
    case true => Rejects(order, c.items.Keys - todo, wanted) && now == DeleteAll(c, heap, order)
    case false => false
  }

  lemma DeletingStarts<E>(c: Container<E>, heap: map<E, Props>, wanted: set<Key>)
    requires Covers(c, heap)
    ensures Deleting(c, heap, [], c.items.Keys - wanted, wanted, c)
  {}

  lemma DeletingEnds<E>(c: Container<E>, heap: map<E, Props>, order: seq<Key>, wanted: set<Key>, now: Container<E>)
    requires Covers(c, heap) && Deleting(c, heap, order, {}, wanted, now)
    ensures Rejects(order, c.items.Keys, wanted) && now == DeleteAll(c, heap, order)
  {
    assert c.items.Keys - {} == c.items.Keys;
  }

  lemma DeletingNext<E>(c: Container<E>, heap: map<E, Props>, order: seq<Key>, todo: set<Key>,
          wanted: set<Key>, now: Container<E>, k: Key)
    requires Covers(c, heap) && Covers(now, heap) && Deleting(c, heap, order, todo, wanted, now) && k in todo
    ensures Deleting(c, heap, order + [k], todo - {k}, wanted, DelItem(now, heap, k).0)
  {
    DeleteAllAppend(c, heap, order, k);
    RejectsAppend(order, c.items.Keys, todo, k, wanted);
  }

  function Restricted<E>(items: map<Key, E>, wanted: set<Key>): map<Key, E> {
    map k | k in items && k in wanted :: items[k]
  }

  lemma RestrictedWithout<E>(items: map<Key, E>, k: Key, wanted: set<Key>)
    requires k !in wanted
    ensures Restricted(items - {k}, wanted) == Restricted(items, wanted)
  {}

  lemma RemovedParts<E>(c: Container<E>, heap: map<E, Props>, k: Key)
    requires Covers(c, heap) && k in c.items
    ensures Removed(c, heap, k).keys == Without(c.keys, k) && Removed(c, heap, k).items == c.items - {k}
    ensures Removed(c, heap, k).items.Keys == c.items.Keys - {k}
  {}

  lemma DeleteAllNext<E>(c: Container<E>, heap: map<E, Props>, order: seq<Key>)
    requires Agrees(c, heap) && AllInPlace(c, heap) && order != [] && order[0] in c.items
    ensures Covers(Removed(c, heap, order[0]), heap)
    ensures DeleteAll(c, heap, order) == DeleteAll(Removed(c, heap, order[0]), heap, order[1..])
  {
    DelItemIsRemoved(c, heap, order[0]);
    DelItemCovers(c, heap, order[0]);
  }

  lemma {:induction false} DeleteAllAppend<E>(c: Container<E>, heap: map<E, Props>, order: seq<Key>, k: Key)
    requires Covers(c, heap)
    ensures Covers(DeleteAll(c, heap, order), heap)
    ensures DeleteAll(c, heap, order + [k]) == DelItem(DeleteAll(c, heap, order), heap, k).0
    decreases |order|
  {
    if order == [] {
      assert [] + [k] == [k] && [k][1..] == [];
    } else {
      DelItemCovers(c, heap, order[0]);
      assert (order + [k])[1..] == order[1..] + [k];
      DeleteAllAppend(DelItem(c, heap, order[0]).0, heap, order[1..], k);
    }
  }

  /** `filter` keeps exactly the selected items that exist, in their order, and the index right; in
      whatever order the others are deleted. */
  lemma {:induction false} FilterKeepsSelected<E>(c: Container<E>, heap: map<E, Props>, wanted: set<Key>,
          order: seq<Key>)
    requires Agrees(c, heap) && AllInPlace(c, heap) && Rejects(order, c.items.Keys, wanted)
    ensures Agrees(DeleteAll(c, heap, order), heap)
    ensures DeleteAll(c, heap, order).keys == Kept(c.keys, wanted)
    ensures DeleteAll(c, heap, order).items == Restricted(c.items, wanted)
    decreases |order|
  {
    if order == [] {
      KeptAll(c.keys, wanted);
    } else {
      var k := order[0];
      RejectsNext(order, c.items.Keys, wanted);
      DeleteAllNext(c, heap, order);
      RemovedInPlace(c, heap, k);
      RemovedParts(c, heap, k);
      KeptWithout(c.keys, k, wanted);
      RestrictedWithout(c.items, k, wanted);
      FilterKeepsSelected(Removed(c, heap, k), heap, wanted, order[1..]);
    }
  }

  // ---------- merging into a container ----------

  /** A container and the properties of the elements. */
  datatype World<E> = World(c: Container<E>, heap: map<E, Props>)

  /** `deep_merge` of two elements' properties. */
  function Merged(x: Props, y: Props): Props {
    MergeCannotRaise(Dict(x), Dict(y), NoIteration());
    Merge(Dict(x), Dict(y), false, NoIteration()).value.m
  }

  /** One item of `deep_merge` into the container: an element that is found is changed and stored under
      the given key, otherwise a copy is; the copy, if there is one, is `spare`. */
  function MergeItem<E>(w: World<E>, key: Key, value: Props, spare: E): World<E>
    requires Covers(w.c, w.heap)
  {
    match GetItem(w.c, key)
    case None => World(SetItem(w.c, key, spare, TextKey(value)), w.heap[spare := value])
    case Some(e) =>
      var p := Merged(w.heap[e], value);
      World(SetItem(w.c, key, e, TextKey(p)), w.heap[e := p])
  }

  ghost predicate SameTexts<E>(c: Container<E>, heap: map<E, Props>, heap2: map<E, Props>)
    requires Covers(c, heap)
  {
    && (forall k | k in c.items :: c.items[k] in heap2 && TextKey(heap2[c.items[k]]) == TextKey(heap[c.items[k]]))
    && (forall s | s in c.index :: c.index[s] in heap2 && TextKey(heap2[c.index[s]]) == TextKey(heap[c.index[s]]))
  }

  /** Only the text keys of the elements matter for the index. */
  lemma AgreesSameTexts<E>(c: Container<E>, heap: map<E, Props>, heap2: map<E, Props>)
    requires Agrees(c, heap) && SameTexts(c, heap, heap2)
    ensures Agrees(c, heap2)
  {
    assert Sound(c, heap2);
    assert EntriesLive(c, heap2);
  }

  /** Storing an element where it is changes nothing. */
  lemma SetItemAtPlace<E>(c: Container<E>, heap: map<E, Props>, key: Key, e: E)
    requires Agrees(c, heap) && Transform(key) in c.items && c.items[Transform(key)] == e
    ensures SetItem(c, key, e, TextKey(heap[e])) == c
  {
    var d := SetItem(c, key, e, TextKey(heap[e]));
    assert d.items == c.items;
    assert d.index == c.index;
  }

  /** Merging into an element whose text key stays what it was keeps the index right exactly if the key
      is the element's place: under any other key, that is, under its text key, it is stored twice. */
  lemma MergeItemAgreesIff<E>(w: World<E>, key: Key, value: Props, spare: E)
    requires Agrees(w.c, w.heap) && GetItem(w.c, key).Some?
    requires var e := GetItem(w.c, key).value; TextKey(Merged(w.heap[e], value)) == TextKey(w.heap[e])
    ensures var w2 := MergeItem(w, key, value, spare);
      && (Agrees(w2.c, w2.heap) <==> Transform(key) in w.c.items)
      && (Transform(key) in w.c.items ==> w2.c == w.c)
  {
    var e := GetItem(w.c, key).value;
    var p := Merged(w.heap[e], value);
    var w2 := MergeItem(w, key, value, spare);
    var k := Transform(key);
    TransformTwice(key);
    if k in w.c.items {
      FoundAtPlace(w.c, w.heap, k);
      SetItemAtPlace(w.c, w.heap, key, e);
      AgreesSameTexts(w.c, w.heap, w2.heap);
    } else {
      var j :| j in w.c.items && w.c.items[j] == e;
      assert w2.c.items[j] == e && w2.c.items[k] == e;
    }
  }

  /** One element, at 1, with text key "a". */
  function Lone(): World<int> {
    World(Container([Id(1)], map[Id(1) := 1], map[String("a") := 1]), map[1 := map[KEY := Leaf(String("a"))]])
  }

  lemma LoneAgrees()
    ensures Agrees(Lone().c, Lone().heap)
  {
    assert !IsDigit("a") by { assert "a"[0] == 'a'; }
    assert TextKey(Lone().heap[1]) == Some(String("a"));
    assert Lone().c.items[Id(1)] == 1;
    assert AllIndexed(Lone().c, Lone().heap) && EntriesLive(Lone().c, Lone().heap);
  }

  /** Merging into it under its text key stores it twice. */
  lemma StoresTwice(spare: int)
    ensures var w := MergeItem(Lone(), Text("a"), map[], spare);
      && w.c.items == map[Id(1) := 1, Text("a") := 1] && !Agrees(w.c, w.heap)
  {
    LoneAgrees();
    assert !IsDigit("a") by { assert "a"[0] == 'a'; }
    var w := Lone();
    assert GetItem(w.c, Text("a")) == Some(1);
    MergeCannotRaise(Dict(w.heap[1]), Dict(map[]), NoIteration());
    assert Merged(w.heap[1], map[]) == w.heap[1];
    MergeItemAgreesIff(w, Text("a"), map[], spare);
  }

  /** Merging a new element keeps the index right exactly if the element fits. */
  lemma MergeNewAgreesIff<E>(w: World<E>, key: Key, value: Props, spare: E)
    requires Agrees(w.c, w.heap) && GetItem(w.c, key).None? && spare !in w.heap
    ensures Covers(w.c, w.heap[spare := value])
    ensures var w2 := MergeItem(w, key, value, spare);
      Agrees(w2.c, w2.heap) <==> Fits(w.c, w2.heap, Transform(key), spare)
  {
    var heap2 := w.heap[spare := value];
    AgreesSameTexts(w.c, w.heap, heap2);
    SetItemAgreesIff(w.c, heap2, key, spare);
  }

  lemma MergeItemCovers<E>(w: World<E>, key: Key, value: Props, spare: E)
    requires Covers(w.c, w.heap)
    ensures Covers(MergeItem(w, key, value, spare).c, MergeItem(w, key, value, spare).heap)
  {
    TransformTwice(key);
  }

  /** `deep_merge` into the container, item by item. */
  function MergeItems<E>(w: World<E>, updates: seq<(Key, Props)>, spares: seq<E>): World<E>
    requires Covers(w.c, w.heap) && |spares| == |updates|
    decreases |updates|
  {
    if updates == [] then w
    else
      MergeItemCovers(w, updates[0].0, updates[0].1, spares[0]);
      MergeItems(MergeItem(w, updates[0].0, updates[0].1, spares[0]), updates[1..], spares[1..])
  }

  lemma {:induction false} MergeItemsAppend<E>(w: World<E>, updates: seq<(Key, Props)>, spares: seq<E>,
          update: (Key, Props), spare: E)
    requires Covers(w.c, w.heap) && |spares| == |updates|
    ensures var w2 := MergeItems(w, updates, spares);
      Covers(w2.c, w2.heap)
      && MergeItems(w, updates + [update], spares + [spare]) == MergeItem(w2, update.0, update.1, spare)
    decreases |updates|
  {
    if updates == [] {
      assert [] + [update] == [update] && [] + [spare] == [spare];
      assert [update][1..] == [] && [spare][1..] == [];
      MergeItemCovers(w, update.0, update.1, spare);
    } else {
      assert (updates + [update])[1..] == updates[1..] + [update];
      assert (spares + [spare])[1..] == spares[1..] + [spare];
      MergeItemCovers(w, updates[0].0, updates[0].1, spares[0]);
      MergeItemsAppend(MergeItem(w, updates[0].0, updates[0].1, spares[0]), updates[1..], spares[1..], update, spare);
    }
  }

  /** Every element that is stored under a missing key is a new one. */
  ghost predicate NewSpares<E>(w: World<E>, updates: seq<(Key, Props)>, spares: seq<E>)
    requires Covers(w.c, w.heap) && |spares| == |updates|
    decreases |updates|
  {
    updates == [] ||
    ((GetItem(w.c, updates[0].0).None? ==> spares[0] !in w.heap)
     && (MergeItemCovers(w, updates[0].0, updates[0].1, spares[0]);
         NewSpares(MergeItem(w, updates[0].0, updates[0].1, spares[0]), updates[1..], spares[1..])))
  }

  lemma {:induction false} NewSparesAppend<E>(w: World<E>, updates: seq<(Key, Props)>, spares: seq<E>,
          update: (Key, Props), spare: E)
    requires Covers(w.c, w.heap) && |spares| == |updates| && NewSpares(w, updates, spares)
    requires var w2 := MergeItems(w, updates, spares); GetItem(w2.c, update.0).None? ==> spare !in w2.heap
    ensures NewSpares(w, updates + [update], spares + [spare])
    decreases |updates|
  {
    if updates == [] {
      assert [] + [update] == [update] && [] + [spare] == [spare];
    } else {
      assert (updates + [update])[1..] == updates[1..] + [update];
      assert (spares + [spare])[1..] == spares[1..] + [spare];
      MergeItemCovers(w, updates[0].0, updates[0].1, spares[0]);
      NewSparesAppend(MergeItem(w, updates[0].0, updates[0].1, spares[0]), updates[1..], spares[1..], update, spare);
    }
  }

  /** Merging the updates leads from one world to the other, and the elements added are new. */
  ghost predicate MergedTo<E>(w: World<E>, updates: seq<(Key, Props)>, spares: seq<E>, now: World<E>) {
    match Covers(w.c, w.heap) && |spares| == |updates|
    case true => now == MergeItems(w, updates, spares) && NewSpares(w, updates, spares)
    case false => false
  }

  lemma MergedToNext<E>(w: World<E>, updates: seq<(Key, Props)>, spares: seq<E>, now: World<E>,
          update: (Key, Props), spare: E)
    requires MergedTo(w, updates, spares, now) && Covers(now.c, now.heap)
    requires GetItem(now.c, update.0).None? ==> spare !in now.heap
    ensures MergedTo(w, updates + [update], spares + [spare], MergeItem(now, update.0, update.1, spare))
  {
    MergeItemsAppend(w, updates, spares, update, spare);
    NewSparesAppend(w, updates, spares, update, spare);
  }

  lemma MergedToMeans<E>(w: World<E>, updates: seq<(Key, Props)>, spares: seq<E>, now: World<E>)
    requires MergedTo(w, updates, spares, now)
    ensures Covers(w.c, w.heap) && |spares| == |updates|
    ensures now == MergeItems(w, updates, spares) && NewSpares(w, updates, spares)
  {}

  /** The item changes an element at its place, leaving its text key alone, or adds one that fits. */
  ghost predicate Suits<E>(w: World<E>, key: Key, value: Props, spare: E)
    requires Covers(w.c, w.heap)
  {
    match GetItem(w.c, key)
    case Some(e) => Transform(key) in w.c.items && TextKey(Merged(w.heap[e], value)) == TextKey(w.heap[e])
    case None =>
      var heap2 := w.heap[spare := value];
      Covers(w.c, heap2) && Fits(w.c, heap2, Transform(key), spare)
  }

  ghost predicate AllSuit<E>(w: World<E>, updates: seq<(Key, Props)>, spares: seq<E>)
    requires Covers(w.c, w.heap) && |spares| == |updates|
    decreases |updates|
  {
    updates == [] ||
    (Suits(w, updates[0].0, updates[0].1, spares[0])
     && (MergeItemCovers(w, updates[0].0, updates[0].1, spares[0]);
         AllSuit(MergeItem(w, updates[0].0, updates[0].1, spares[0]), updates[1..], spares[1..])))
  }

  /** Such a merge with new elements keeps the index right. */
  lemma {:induction false} MergeItemsAgree<E>(w: World<E>, updates: seq<(Key, Props)>, spares: seq<E>, now: World<E>)
    requires Agrees(w.c, w.heap) && MergedTo(w, updates, spares, now) && AllSuit(w, updates, spares)
    ensures Agrees(now.c, now.heap)
    decreases |updates|
  {
    MergedToMeans(w, updates, spares, now);
    if updates != [] {
      var key, value, spare := updates[0].0, updates[0].1, spares[0];
      if GetItem(w.c, key).Some? {
        MergeItemAgreesIff(w, key, value, spare);
      } else {
        MergeNewAgreesIff(w, key, value, spare);
      }
      MergeItemsAgree(MergeItem(w, key, value, spare), updates[1..], spares[1..], now);
    }
  }

  // ---------- runs ----------

  datatype Op<E> =
    | SetOp(key: Key, e: E)
    | DelOp(key: Key)
    | FilterOp(order: seq<Key>)
    | MergeOp(key: Key, value: Props, spare: E)

  /** Text keys are unique, no numbers, and do not change once set. */
  ghost predicate Allowed<E>(w: World<E>, op: Op<E>)
    requires Covers(w.c, w.heap)
  {
    match op
    case SetOp(key, e) => e in w.heap && Fits(w.c, w.heap, Transform(key), e)
    case DelOp(_) => true
    case FilterOp(_) => true
    case MergeOp(key, value, spare) =>
      (GetItem(w.c, key).None? ==> spare !in w.heap) && Suits(w, key, value, spare)
  }

  ghost function Step<E>(w: World<E>, op: Op<E>): World<E>
    requires Covers(w.c, w.heap) && Allowed(w, op)
  {
    match op
    case SetOp(key, e) => World(SetItem(w.c, key, e, TextKey(w.heap[e])), w.heap)
    case DelOp(key) => World(DelItem(w.c, w.heap, key).0, w.heap)
    case FilterOp(order) => World(DeleteAll(w.c, w.heap, order), w.heap)
    case MergeOp(key, value, spare) => MergeItem(w, key, value, spare)
  }

  lemma {:induction false} DeleteAllAgrees<E>(c: Container<E>, heap: map<E, Props>, order: seq<Key>)
    requires Agrees(c, heap)
    ensures Agrees(DeleteAll(c, heap, order), heap)
    decreases |order|
  {
    if order != [] {
      DelItemAgrees(c, heap, order[0]);
      DeleteAllAgrees(DelItem(c, heap, order[0]).0, heap, order[1..]);
    }
  }

  lemma StepAgrees<E>(w: World<E>, op: Op<E>)
    requires Agrees(w.c, w.heap) && Allowed(w, op)
    ensures Agrees(Step(w, op).c, Step(w, op).heap)
  {
    match op
    case SetOp(key, e) => SetItemAgrees(w.c, w.heap, key, e);
    case DelOp(key) => DelItemAgrees(w.c, w.heap, key);
    case FilterOp(order) => DeleteAllAgrees(w.c, w.heap, order);
    case MergeOp(key, value, spare) =>
      if GetItem(w.c, key).Some? {
        MergeItemAgreesIff(w, key, value, spare);
      } else {
        MergeNewAgreesIff(w, key, value, spare);
      }
  }

  /** The index is right, and stays so over these operations. */
  ghost predicate Right<E>(w: World<E>) {
    match w
    case World(c, heap) => Agrees(c, heap)
  }

  /** The states of a run of allowed operations. */
  ghost predicate IsRun<E>(ws: seq<World<E>>, ops: seq<Op<E>>) {
    && |ws| == |ops| + 1
    && forall i | 0 <= i < |ops| :: Follows(ws[i], ops[i], ws[i + 1])
  }

  ghost predicate Follows<E>(w: World<E>, op: Op<E>, w2: World<E>) {
    Covers(w.c, w.heap) && Allowed(w, op) && w2 == Step(w, op)
  }

  /** Over any sequence of set, delete, filter and merge with unique, stable text keys that are no
      numbers, the text index agrees with the dictionary. */
  lemma {:induction false} RunAgrees<E>(ws: seq<World<E>>, ops: seq<Op<E>>, n: nat)
    requires IsRun(ws, ops) && n <= |ops| && Right(ws[0])
    ensures Right(ws[n])
  {
    if n > 0 {
      RunAgrees(ws, ops, n - 1);
      assert Follows(ws[n - 1], ops[n - 1], ws[n - 1 + 1]);
      StepAgrees(ws[n - 1], ops[n - 1]);
    }
  }
}
