/** `convert_raw_status` of paradox/parsers/status.py as it runs: each element type is an element
    container, which turns text keys of digits into numbers and looks text keys up in its index first.
    For items without such keys it does what plain dictionaries do, and the theorems about those hold. */
module StatusTables {
  import opened Wrappers
  import opened DeepMerge
  import opened Containers
  import opened Status

  // ---------- element containers of any data ----------

  /** A container whose elements are dictionaries or other values; identities are handed out in order. */
  datatype Elements = Elements(c: Container<nat>, heap: map<nat, Data>, next: nat)

  predicate Held(s: Elements) {
    && (forall k | k in s.c.items :: s.c.items[k] in s.heap)
    && (forall t | t in s.c.index :: s.c.index[t] in s.heap)
  }

  type ElementTable = s: Elements | Held(s) witness Elements(Container([], map[], map[]), map[], 0)

  function Empty(): ElementTable {
    Elements(Container([], map[], map[]), map[], 0)
  }

  /** What an element is indexed by: only a dictionary has a property "key". */
  function TextOf(d: Data): Option<Scalar> {
    if d.Dict? then TextKey(d.m) else None
  }

  /** Store a copy of `value`. */
  function StoreNew(s: ElementTable, key: Key, value: Data): ElementTable {
    Elements(SetItem(s.c, key, s.next, TextOf(value)), s.heap[s.next := value], s.next + 1)
  }

  /** One item of `deep_merge` into the container: two dictionaries are merged in place, anything else
      is replaced by a copy. */
  function MergeElement(s: ElementTable, key: Key, value: Data): ElementTable {
    match GetItem(s.c, key)
    case None => StoreNew(s, key, value)
    case Some(e) =>
      if s.heap[e].Dict? && value.Dict? then
        MergeCannotRaise(s.heap[e], value, NoIteration());
        var p := Merge(s.heap[e], value, false, NoIteration()).value;
        Elements(SetItem(s.c, key, e, TextOf(p)), s.heap[e := p], s.next)
      else StoreNew(s, key, value)
  }

  function AsData(heap: map<nat, Props>): (r: map<nat, Data>)
    ensures r.Keys == heap.Keys
  {
    map e | e in heap :: Dict(heap[e])
  }

  lemma AsDataUpdate(heap: map<nat, Props>, e: nat, p: Props)
    ensures AsData(heap[e := p]) == AsData(heap)[e := Dict(p)]
  {}

  /** On dictionaries this is the merge of an item that the element container is modelled with. */
  lemma MergeElementIsMergeItem(s: ElementTable, key: Key, value: Props, heap: map<nat, Props>)
    requires Covers(s.c, heap) && s.heap == AsData(heap)
    ensures var w, s2 := MergeItem(World(s.c, heap), key, value, s.next), MergeElement(s, key, Dict(value));
      s2.c == w.c && s2.heap == AsData(w.heap)
  {
    match GetItem(s.c, key)
    case None =>
      AsDataUpdate(heap, s.next, value);
    case Some(e) =>
      MergeCannotRaise(s.heap[e], Dict(value), NoIteration());
      AsDataUpdate(heap, e, Merged(heap[e], value));
  }

  /** `deep_merge` of a dictionary into the container, over its items in `order`. */
  function MergeElements(s: ElementTable, d: map<Key, Data>, order: seq<Key>): ElementTable
    requires forall k | k in order :: k in d
    decreases |order|
  {
    if order == [] then s
    else MergeElements(MergeElement(s, order[0], d[order[0]]), d, order[1..])
  }

  // ---------- convert_raw_status ----------

  type Tables = map<string, ElementTable>

  /** What `out` holds for an element type: a defaultdict. */
  function ElementsOf(out: Tables, t: string): ElementTable {
    if t in out then out[t] else Empty()
  }

  /** In which order the parsed item of each root key lists its elements. */
  ghost predicate OrdersItems(orders: string -> seq<Key>, raw: map<Key, Data>) {
    forall root | Text(root) in raw :: Enumerates(orders(root), Parsed(root, raw[Text(root)]).m)
  }

  /** The body of the loop of `convert_raw_status`. */
  function PutInto(out: Tables, root: string, value: Data, order: seq<Key>): Tables
    requires forall k | k in order :: k in Parsed(root, value).m
  {
    out[ElementType(root) := MergeElements(ElementsOf(out, ElementType(root)), Parsed(root, value).m, order)]
  }

  /** The loop of `convert_raw_status` over the items in `order`; None where it raises, on a public key
      that is no text. */
  ghost function ConvertFrom(out: Tables, raw: map<Key, Data>, order: seq<Key>,
          orders: string -> seq<Key>): Option<Tables>
    requires OrdersItems(orders, raw) && forall k | k in order :: k in raw
    decreases |order|
  {
    if order == [] then Some(out)
    else if IsPrivate(order[0]) then ConvertFrom(out, raw, order[1..], orders)
    else if order[0].Id? then None
    else ConvertFrom(PutInto(out, order[0].s, raw[order[0]], orders(order[0].s)), raw, order[1..], orders)
  }

  /** `deep_merge` of one parsed item into its container. */
  method MergeParsed(s: ElementTable, d: map<Key, Data>, order: seq<Key>) returns (r: ElementTable)
    requires forall k | k in order :: k in d
    ensures r == MergeElements(s, d, order)
  {
    r := s;
    for i := 0 to |order|
      invariant MergeElements(s, d, order) == MergeElements(r, d, order[i..])
    {
      assert order[i..][0] == order[i] && order[i..][1..] == order[i + 1..];
      r := MergeElement(r, order[i], d[order[i]]);
    }
  }

  /** `convert_raw_status` */
  method ConvertRawStatus(raw: map<Key, Data>, order: seq<Key>, orders: string -> seq<Key>) returns (r: Option<Tables>)
    requires Enumerates(order, raw) && OrdersItems(orders, raw)
    ensures r == ConvertFrom(map[], raw, order, orders)
  {
    var out: Tables := map[];
    for i := 0 to |order|
      invariant ConvertFrom(map[], raw, order, orders) == ConvertFrom(out, raw, order[i..], orders)
    {
      var root := order[i];
      assert order[i..][0] == root && order[i..][1..] == order[i + 1..];
      if !IsPrivate(root) {
        if root.Id? {
          return None;
        }
        var t := ElementType(root.s);
        var merged := MergeParsed(ElementsOf(out, t), Parsed(root.s, raw[root]).m, orders(root.s));
        out := out[t := merged];
      }
    }
    r := Some(out);
  }

  /** The conversion raises exactly if some public key is no text. */
  lemma {:induction false} ConvertRaisesIff(out: Tables, raw: map<Key, Data>, order: seq<Key>,
          orders: string -> seq<Key>)
    requires OrdersItems(orders, raw) && forall k | k in order :: k in raw
    ensures ConvertFrom(out, raw, order, orders).Some? <==> forall k | k in order :: k.Text?
    decreases |order|
  {
    if order != [] && order[0].Text? {
      var root := order[0];
      var next := if IsPrivate(root) then out else PutInto(out, root.s, raw[root], orders(root.s));
      ConvertRaisesIff(next, raw, order[1..], orders);
      assert forall k | k in order :: k == order[0] || k in order[1..];
    }
  }

  // ---------- items without special keys ----------

  /** What a dictionary goes by as its property "key" is one of the texts. */
  ghost predicate GoesBy(d: Data, texts: iset<Scalar>) {
    d.Dict? && KEY in d.m ==> d.m[KEY].Leaf? && d.m[KEY].v in texts
  }

  ghost predicate AllGoBy(d: map<Key, Data>, texts: iset<Scalar>) {
    forall k | k in d :: GoesBy(d[k], texts)
  }

  /** The key is none of the texts, so that the index does not concern it. */
  ghost predicate NoText(k: Key, texts: iset<Scalar>) {
    k.Text? ==> String(k.s) !in texts
  }

  ghost predicate NoTexts(d: map<Key, Data>, texts: iset<Scalar>) {
    forall k | k in d :: NoText(k, texts)
  }

  /** No element goes by a text of digits. */
  predicate NoDigits(d: map<Key, Data>) {
    forall k | k in d :: Transform(k) == k
  }

  /** Only `texts` are indexed, none of them is an element's place, and every element stands at one place. */
  ghost predicate PlainElements(s: ElementTable, texts: iset<Scalar>) {
    IndexIn(s, texts) && OrdinaryValues(Values(s), texts) && EachOnce(s)
  }

  ghost predicate IndexIn(s: ElementTable, texts: iset<Scalar>) {
    forall x | x in s.c.index :: x in texts
  }

  ghost predicate OrdinaryValues(d: map<Key, Data>, texts: iset<Scalar>) {
    AllGoBy(d, texts) && NoTexts(d, texts) && NoDigits(d)
  }

  predicate EachOnce(s: ElementTable) {
    && (forall k | k in s.c.items :: s.c.items[k] < s.next)
    && forall j, k | j in s.c.items && k in s.c.items && j != k :: s.c.items[j] != s.c.items[k]
  }

  /** The elements by key. */
  function Values(s: ElementTable): (d: map<Key, Data>)
    ensures d.Keys == s.c.items.Keys
  {
    map k | k in s.c.items :: s.heap[s.c.items[k]]
  }

  /** `d` after the items of `more` at the given keys have been merged into it. */
  function After(d: map<Key, Data>, more: map<Key, Data>, keys: set<Key>): map<Key, Data>
    requires keys <= more.Keys
  {
    map k | k in d.Keys + keys :: if k in keys then MergedAt(d, k, more[k]) else d[k]
  }

  function MergedAt(d: map<Key, Data>, k: Key, value: Data): Data {
    if k in d then
      MergeCannotRaise(d[k], value, NoIteration());
      Merge(d[k], value, false, NoIteration()).value
    else value
  }

  lemma MergedGoesBy(d: map<Key, Data>, k: Key, value: Data, texts: iset<Scalar>)
    requires AllGoBy(d, texts) && GoesBy(value, texts)
    ensures GoesBy(MergedAt(d, k, value), texts)
  {
    if k in d {
      assert GoesBy(d[k], texts);
      MergeCannotRaise(d[k], value, NoIteration());
    }
  }

  /** For keys that are not indexed a lookup is a lookup in the dictionary. */
  lemma PlainLookup(s: ElementTable, key: Key, texts: iset<Scalar>)
    requires PlainElements(s, texts) && NoText(Transform(key), texts)
    ensures GetItem(s.c, key) == if Transform(key) in s.c.items then Some(s.c.items[Transform(key)]) else None
  {}

  lemma StoredOnce(s: ElementTable, key: Key, value: Data)
    requires EachOnce(s) && Transform(key) == key
    ensures EachOnce(StoreNew(s, key, value)) && Values(StoreNew(s, key, value)) == Values(s)[key := value]
  {
    assert Values(StoreNew(s, key, value)) == Values(s)[key := value];
  }

  lemma ChangedOnce(s: ElementTable, key: Key, p: Data)
    requires EachOnce(s) && key in s.c.items && Transform(key) == key
    ensures var e := s.c.items[key];
      var s2 := Elements(SetItem(s.c, key, e, TextOf(p)), s.heap[e := p], s.next);
      Held(s2) && EachOnce(s2) && Values(s2) == Values(s)[key := p]
  {
    var e := s.c.items[key];
    var s2 := Elements(SetItem(s.c, key, e, TextOf(p)), s.heap[e := p], s.next);
    assert s2.c.items == s.c.items;
    assert Values(s2) == Values(s)[key := p];
  }

  /** For such keys a store is a store in the dictionary. */
  lemma PlainStore(s: ElementTable, key: Key, value: Data, texts: iset<Scalar>)
    requires PlainElements(s, texts) && Transform(key) == key && NoText(key, texts) && GoesBy(value, texts)
    ensures PlainElements(StoreNew(s, key, value), texts)
    ensures Values(StoreNew(s, key, value)) == Values(s)[key := value]
  {
    StoredOnce(s, key, value);
    assert IndexIn(StoreNew(s, key, value), texts);
    assert OrdinaryValues(Values(s)[key := value], texts);
  }

  lemma PlainChange(s: ElementTable, key: Key, p: Data, texts: iset<Scalar>)
    requires PlainElements(s, texts) && key in s.c.items && GoesBy(p, texts)
    ensures var e := s.c.items[key];
      var s2 := Elements(SetItem(s.c, key, e, TextOf(p)), s.heap[e := p], s.next);
      Held(s2) && PlainElements(s2, texts) && Values(s2) == Values(s)[key := p]
  {
    var e := s.c.items[key];
    var s2 := Elements(SetItem(s.c, key, e, TextOf(p)), s.heap[e := p], s.next);
    assert Transform(key) == key by { assert key in Values(s); }
    ChangedOnce(s, key, p);
    assert IndexIn(s2, texts);
    assert OrdinaryValues(Values(s)[key := p], texts);
  }

  /** One item is merged as into a plain dictionary. */
  lemma MergeElementIsPlain(s: ElementTable, key: Key, value: Data, texts: iset<Scalar>)
    requires PlainElements(s, texts) && Transform(key) == key && NoText(key, texts) && GoesBy(value, texts)
    ensures PlainElements(MergeElement(s, key, value), texts)
    ensures Values(MergeElement(s, key, value)) == Values(s)[key := MergedAt(Values(s), key, value)]
  {
    PlainLookup(s, key, texts);
    if key in s.c.items && s.heap[s.c.items[key]].Dict? && value.Dict? {
      MergedGoesBy(Values(s), key, value, texts);
      PlainChange(s, key, MergedAt(Values(s), key, value), texts);
    } else {
      PlainStore(s, key, value, texts);
    }
  }

  lemma AfterOne(d: map<Key, Data>, more: map<Key, Data>, k: Key, rest: set<Key>)
    requires k in more && k !in rest && rest <= more.Keys
    ensures After(d[k := MergedAt(d, k, more[k])], more, rest) == After(d, more, rest + {k})
  {}

  function KeySet(order: seq<Key>): (r: set<Key>)
    ensures forall k :: k in r <==> k in order
  {
    set k | k in order
  }

  lemma KeySetNext(order: seq<Key>)
    requires order != [] && forall i, j | 0 <= i < j < |order| :: order[i] != order[j]
    ensures order[0] !in order[1..] && KeySet(order) == KeySet(order[1..]) + {order[0]}
    ensures forall i, j | 0 <= i < j < |order[1..]| :: order[1..][i] != order[1..][j]
  {
    assert forall i | 0 <= i < |order[1..]| :: order[1..][i] == order[i + 1];
    assert forall k | k in order :: k == order[0] || k in order[1..];
  }

  /** A dictionary is merged as into a plain dictionary. */
  lemma {:induction false} MergeElementsIsPlain(s: ElementTable, d: map<Key, Data>, order: seq<Key>,
          texts: iset<Scalar>)
    requires PlainElements(s, texts) && AllGoBy(d, texts) && NoTexts(d, texts) && NoDigits(d)
    requires (forall k | k in order :: k in d) && forall i, j | 0 <= i < j < |order| :: order[i] != order[j]
    ensures PlainElements(MergeElements(s, d, order), texts)
    ensures Values(MergeElements(s, d, order)) == After(Values(s), d, KeySet(order))
    decreases |order|
  {
    if order == [] {
      assert Values(s) == After(Values(s), d, {});
    } else {
      var key := order[0];
      KeySetNext(order);
      MergeElementIsPlain(s, key, d[key], texts);
      MergeElementsIsPlain(MergeElement(s, key, d[key]), d, order[1..], texts);
      AfterOne(Values(s), d, key, KeySet(order[1..]));
    }
  }

  lemma AfterAll(d: map<Key, Data>, more: map<Key, Data>)
    ensures Merge(Dict(d), Dict(more), false, NoIteration()) == Some(Dict(After(d, more, more.Keys)))
  {
    MergeCannotRaise(Dict(d), Dict(more), NoIteration());
    assert Merge(Dict(d), Dict(more), false, NoIteration()).value.m == After(d, more, more.Keys);
  }

  // ---------- the table is the plain one ----------

  function TableOf(out: Tables): Table {
    map t | t in out :: Dict(Values(out[t]))
  }

  lemma TypeOfTable(out: Tables, t: string)
    ensures TypeOf(TableOf(out), t) == Dict(Values(ElementsOf(out, t)))
  {
    assert Values(Empty()) == map[];
  }

  /** An element of the item `root`, of type t, has the property "key" x. */
  ghost predicate HasText(raw: map<Key, Data>, t: string, x: Scalar, root: Key, k: Key) {
    && root in raw && Feeds(root, t) && k in Parsed(root.s, raw[root]).m
    && TextOf(Parsed(root.s, raw[root]).m[k]) == Some(x)
  }

  ghost predicate IsTextOf(raw: map<Key, Data>, t: string, x: Scalar) {
    exists root, k :: HasText(raw, t, x, root, k)
  }

  /** The properties "key" of the elements of type t. */
  ghost function TextsOf(raw: map<Key, Data>, t: string): iset<Scalar> {
    iset x | IsTextOf(raw, t, x)
  }

  ghost predicate PlainTables(out: Tables, raw: map<Key, Data>) {
    forall t | t in out :: PlainElements(out[t], TextsOf(raw, t))
  }

  /** A property "key" can be indexed: it is no list and no dictionary. */
  predicate KeysHashable(raw: map<Key, Data>) {
    forall root | root in raw && root.Text? && !IsPrivate(root) :: AllHashable(Parsed(root.s, raw[root]).m)
  }

  predicate AllHashable(d: map<Key, Data>) {
    forall k | k in d && d[k].Dict? && KEY in d[k].m :: d[k].m[KEY].Leaf?
  }

  /** No element goes by a text that is the property "key" of an element of its type. */
  ghost predicate NoNameIndexed(raw: map<Key, Data>) {
    forall root | root in raw && root.Text? && !IsPrivate(root) ::
      NoTexts(Parsed(root.s, raw[root]).m, TextsOf(raw, ElementType(root.s)))
  }

  lemma ItemGoesBy(raw: map<Key, Data>, root: Key)
    requires KeysHashable(raw) && root in raw && root.Text? && !IsPrivate(root)
    ensures AllGoBy(Parsed(root.s, raw[root]).m, TextsOf(raw, ElementType(root.s)))
  {
    var d, texts := Parsed(root.s, raw[root]).m, TextsOf(raw, ElementType(root.s));
    forall k | k in d
      ensures GoesBy(d[k], texts)
    {
      if d[k].Dict? && KEY in d[k].m {
        assert HasText(raw, ElementType(root.s), d[k].m[KEY].v, root, k);
      }
    }
  }

  /** Without a property "key" nothing is indexed, and these conditions are met. */
  lemma WithoutKeyProperty(raw: map<Key, Data>)
    requires forall root | root in raw && root.Text? && !IsPrivate(root) :: NoKeyIn(Parsed(root.s, raw[root]).m)
    ensures KeysHashable(raw) && NoNameIndexed(raw) && forall t :: TextsOf(raw, t) == iset{}
  {
    forall t: string, x, root, k
      ensures !HasText(raw, t, x, root, k)
    {
      if root in raw && root.Text? && !IsPrivate(root) {
        assert NoKeyIn(Parsed(root.s, raw[root]).m);
      }
    }
    assert forall t, x :: !IsTextOf(raw, t, x);
  }

  predicate NoKeyIn(d: map<Key, Data>) {
    forall k | k in d && d[k].Dict? :: KEY !in d[k].m
  }

  /** No element of an item goes by a text of digits. */
  predicate NoDigitKeys(raw: map<Key, Data>) {
    forall k | k in raw && k.Text? && !IsPrivate(k) :: NoDigits(Parsed(k.s, raw[k]).m)
  }

  /** An item whose keys the containers treat like any others. */
  ghost predicate OrdinaryKeys(raw: map<Key, Data>) {
    KeysHashable(raw) && NoNameIndexed(raw) && NoDigitKeys(raw)
  }

  /** A parsed item is merged as into a plain dictionary. */
  lemma MergeParsedIsPlain(s: ElementTable, d: map<Key, Data>, order: seq<Key>, texts: iset<Scalar>)
    requires PlainElements(s, texts) && AllGoBy(d, texts) && NoTexts(d, texts) && NoDigits(d) && Enumerates(order, d)
    ensures PlainElements(MergeElements(s, d, order), texts)
    ensures Merge(Dict(Values(s)), Dict(d), false, NoIteration()) == Some(Dict(Values(MergeElements(s, d, order))))
  {
    MergeElementsIsPlain(s, d, order, texts);
    assert KeySet(order) == d.Keys;
    AfterAll(Values(s), d);
  }

  lemma TableUpdate(out: Tables, t: string, s: ElementTable, raw: map<Key, Data>)
    ensures TableOf(out[t := s]) == TableOf(out)[t := Dict(Values(s))]
    ensures PlainTables(out, raw) && PlainElements(s, TextsOf(raw, t)) ==> PlainTables(out[t := s], raw)
  {}

  lemma PutIsPlain(out: Tables, raw: map<Key, Data>, root: Key, order: seq<Key>)
    requires root in raw && root.Text? && !IsPrivate(root) && PlainTables(out, raw)
    requires Enumerates(order, Parsed(root.s, raw[root]).m) && NoDigits(Parsed(root.s, raw[root]).m)
    requires KeysHashable(raw) && NoNameIndexed(raw)
    ensures PlainTables(PutInto(out, root.s, raw[root], order), raw)
    ensures TableOf(PutInto(out, root.s, raw[root], order)) == Put(TableOf(out), root.s, raw[root])
  {
    var t, d := ElementType(root.s), Parsed(root.s, raw[root]).m;
    assert Parsed(root.s, raw[root]) == Dict(d);
    TypeOfTable(out, t);
    ItemGoesBy(raw, root);
    assert PlainElements(ElementsOf(out, t), TextsOf(raw, t));
    MergeParsedIsPlain(ElementsOf(out, t), d, order, TextsOf(raw, t));
    TableUpdate(out, t, MergeElements(ElementsOf(out, t), d, order), raw);
  }

  /** For items whose elements go by no indexed text and no text of digits, the element containers hold
      what plain dictionaries would. */
  lemma {:induction false} ConvertIsPlain(out: Tables, raw: map<Key, Data>, order: seq<Key>, orders: string -> seq<Key>)
    requires OrdersItems(orders, raw) && (forall k | k in order :: k in raw) && PlainTables(out, raw)
    requires OrdinaryKeys(raw) && ConvertFrom(out, raw, order, orders).Some?
    ensures var r := ConvertFrom(out, raw, order, orders).value;
      PlainTables(r, raw) && PlainFrom(TableOf(out), raw, order) == Some(TableOf(r))
    decreases |order|
  {
    if order != [] {
      var root := order[0];
      if IsPrivate(root) {
        ConvertIsPlain(out, raw, order[1..], orders);
      } else {
        PutIsPlain(out, raw, root, orders(root.s));
        ConvertIsPlain(PutInto(out, root.s, raw[root], orders(root.s)), raw, order[1..], orders);
      }
    }
  }

  /** Every element stands under a number or a text that is none. */
  ghost predicate KeysTransformed(out: Tables) {
    forall t | t in out :: NoDigits(Values(out[t]))
  }

  lemma {:induction false} MergeElementsTransforms(s: ElementTable, d: map<Key, Data>, order: seq<Key>)
    requires NoDigits(Values(s)) && forall k | k in order :: k in d
    ensures NoDigits(Values(MergeElements(s, d, order)))
    decreases |order|
  {
    if order != [] {
      TransformTwice(order[0]);
      MergeElementsTransforms(MergeElement(s, order[0], d[order[0]]), d, order[1..]);
    }
  }

  lemma {:induction false} ConvertTransforms(out: Tables, raw: map<Key, Data>, order: seq<Key>,
          orders: string -> seq<Key>)
    requires OrdersItems(orders, raw) && (forall k | k in order :: k in raw) && KeysTransformed(out)
    requires ConvertFrom(out, raw, order, orders).Some?
    ensures KeysTransformed(ConvertFrom(out, raw, order, orders).value)
    decreases |order|
  {
    if order != [] {
      var root := order[0];
      if IsPrivate(root) {
        ConvertTransforms(out, raw, order[1..], orders);
      } else {
        MergeElementsTransforms(ElementsOf(out, ElementType(root.s)), Parsed(root.s, raw[root]).m, orders(root.s));
        ConvertTransforms(PutInto(out, root.s, raw[root], orders(root.s)), raw, order[1..], orders);
      }
    }
  }

  predicate HasKey(d: Data, k: Key) {
    d.Dict? && k in d.m
  }

  lemma PutHasKeys(out: Table, root: string, value: Data, t: string, k: Key)
    requires HasKey(TypeOf(out, t), k) || (ElementType(root) == t && HasKey(Parsed(root, value), k))
    ensures HasKey(TypeOf(Put(out, root, value), t), k)
  {
    MergeCannotRaise(TypeOf(out, ElementType(root)), Parsed(root, value), NoIteration());
  }

  /** Plain dictionaries keep every key they are given. */
  lemma {:induction false} PlainHasKeys(out: Table, raw: map<Key, Data>, order: seq<Key>, root: Key, t: string, k: Key)
    requires (forall r | r in order :: r in raw) && PlainFrom(out, raw, order).Some?
    requires HasKey(TypeOf(out, t), k) || (root in order && Feeds(root, t) && HasKey(Parsed(root.s, raw[root]), k))
    ensures HasKey(TypeOf(PlainFrom(out, raw, order).value, t), k)
    decreases |order|
  {
    if order != [] {
      var first := order[0];
      if IsPrivate(first) {
        PlainHasKeys(out, raw, order[1..], root, t, k);
      } else {
        if HasKey(TypeOf(out, t), k) || first == root {
          PutHasKeys(out, first.s, raw[first], t, k);
        }
        PlainHasKeys(Put(out, first.s, raw[first]), raw, order[1..], root, t, k);
      }
    }
  }

  lemma TransformedLacks(out: Tables, t: string, k: Key)
    requires KeysTransformed(out) && Transform(k) != k
    ensures !HasKey(TypeOf(TableOf(out), t), k)
  {
    TypeOfTable(out, t);
    assert NoDigits(Values(ElementsOf(out, t)));
  }

  /** As long as no element goes by an indexed text, the containers hold what plain dictionaries would
      exactly if none goes by a text of digits. */
  lemma ConvertIsPlainIff(raw: map<Key, Data>, order: seq<Key>, orders: string -> seq<Key>, out: Tables)
    requires Enumerates(order, raw) && OrdersItems(orders, raw) && ConvertFrom(map[], raw, order, orders) == Some(out)
    requires KeysHashable(raw) && NoNameIndexed(raw)
    ensures PlainFrom(map[], raw, order) == Some(TableOf(out)) <==> NoDigitKeys(raw)
  {
    assert TableOf(map[]) == map[];
    if NoDigitKeys(raw) {
      ConvertIsPlain(map[], raw, order, orders);
    } else if PlainFrom(map[], raw, order) == Some(TableOf(out)) {
      ConvertTransforms(map[], raw, order, orders);
      var root :| root in raw && root.Text? && !IsPrivate(root) && !NoDigits(Parsed(root.s, raw[root]).m);
      var k :| k in Parsed(root.s, raw[root]).m && Transform(k) != k;
      PlainHasKeys(map[], raw, order, root, ElementType(root.s), k);
      TransformedLacks(out, ElementType(root.s), k);
    }
  }

  // ---------- what a lookup finds ----------

  /** The leaf at a place, the element looked up as the container does. */
  function Found(s: ElementTable, place: Path): Option<Data> {
    if place == [] then None
    else
      match GetItem(s.c, place[0])
      case None => None
      case Some(e) => LeafAt(s.heap[e], place[1..])
  }

  lemma FoundIsLeaf(s: ElementTable, place: Path, texts: iset<Scalar>)
    requires PlainElements(s, texts) && place != [] && NoText(Transform(place[0]), texts)
    ensures Found(s, place) == LeafAt(Dict(Values(s)), [Transform(place[0])] + place[1..])
    ensures Transform(place[0]) == place[0] ==> Found(s, place) == LeafAt(Dict(Values(s)), place)
  {
    PlainLookup(s, place[0], texts);
    LeafBelow(Dict(Values(s)), Transform(place[0]), place[1..]);
    LeafBelow(Dict(Values(s)), place[0], place[1..]);
    assert [place[0]] + place[1..] == place;
  }

  lemma LeafIsFound(s: ElementTable, place: Path, texts: iset<Scalar>)
    requires PlainElements(s, texts) && LeafAt(Dict(Values(s)), place).Some?
    ensures Found(s, place) == LeafAt(Dict(Values(s)), place)
  {
    assert place[0] in Values(s);
    FoundIsLeaf(s, place, texts);
  }

  /** In the table that `convert_raw_status` returns, the public leaf of an item is found at its place
      under the item's element type. */
  lemma ConvertPlacesLeaf(raw: map<Key, Data>, order: seq<Key>, orders: string -> seq<Key>, out: Tables,
          root: string, path: Path)
    requires Enumerates(order, raw) && OrdersItems(orders, raw) && ConvertFrom(map[], raw, order, orders) == Some(out)
    requires NonColliding(raw) && OrdinaryKeys(raw)
    requires Text(root) in raw && !IsPrivate(Text(root)) && LeafAt(raw[Text(root)], path).Some? && IsPublic(path)
    ensures Found(ElementsOf(out, ElementType(root)), Placed(Text(PropertyName(root)), raw[Text(root)], path))
         == LeafAt(raw[Text(root)], path)
  {
    var t := ElementType(root);
    assert TableOf(map[]) == map[];
    ConvertIsPlain(map[], raw, order, orders);
    PlainPlacesLeaf(raw, order, TableOf(out), root, path);
    TypeOfTable(out, t);
    LeafIsFound(ElementsOf(out, t), Placed(Text(PropertyName(root)), raw[Text(root)], path), TextsOf(raw, t));
  }

  /** Where the container looks for a place: a text of digits means the number. */
  function Sought(place: Path): Path
    requires place != []
  {
    [Transform(place[0])] + place[1..]
  }

  /** Nothing else is found in the table. */
  lemma ConvertInventsNothing(raw: map<Key, Data>, order: seq<Key>, orders: string -> seq<Key>, out: Tables,
          t: string, place: Path)
    requires Enumerates(order, raw) && OrdersItems(orders, raw) && ConvertFrom(map[], raw, order, orders) == Some(out)
    requires NonColliding(raw) && OrdinaryKeys(raw)
    requires Found(ElementsOf(out, t), place).Some? && NoText(Transform(place[0]), TextsOf(raw, t))
    ensures exists root, path :: ComesFrom(raw, t, Sought(place), root, path)
              && LeafAt(raw[Text(root)], path) == Found(ElementsOf(out, t), place)
  {
    assert TableOf(map[]) == map[];
    ConvertIsPlain(map[], raw, order, orders);
    TypeOfTable(out, t);
    FoundIsLeaf(ElementsOf(out, t), place, TextsOf(raw, t));
    PlainInventsNothing(raw, order, TableOf(out), t, Sought(place));
  }

  lemma FiveIsDigit()
    ensures Transform(Text("5")) == Id(5)
  {
    assert IsDigit("5") by { assert "5"[0] == '5'; }
    assert "5"[..0] == "";
    assert ToInt("5") == 5;
  }

  /** With text keys of digits it fails: of two items of one element type, one under "5" and one under
      5, the second takes the place of the first. */
  lemma DigitsShareAnElement(p: Key, x: Scalar, y: Scalar)
    ensures var first, second := Dict(map[p := Leaf(x)]), Dict(map[p := Leaf(y)]);
      var s := MergeElement(MergeElement(Empty(), Text("5"), first), Id(5), second);
      Found(s, [Text("5"), p]) == Some(Leaf(y)) && Found(s, [Id(5), p]) == Some(Leaf(y))
  {
    FiveIsDigit();
    var first, second := Dict(map[p := Leaf(x)]), Dict(map[p := Leaf(y)]);
    var s := MergeElement(Empty(), Text("5"), first);
    assert s == StoreNew(Empty(), Text("5"), first);
    assert GetItem(s.c, Id(5)) == Some(0) && s.heap[0] == first;
    MergeCannotRaise(first, second, NoIteration());
    assert Merge(first, second, false, NoIteration()).value == second;
    var s2 := MergeElement(s, Id(5), second);
    assert GetItem(s2.c, Id(5)) == Some(0) && s2.heap[0] == second;
    LeafBelow(second, p, []);
    assert [Text("5"), p][1..] == [p] + [] && [Id(5), p][1..] == [p] + [];
  }

  /** With an element that goes by the text key of another it fails: what is meant for "a" ends up in
      element 1, whose property "key" is "a". */
  lemma KeyFindsAnother(p: Key, x: Scalar)
    requires p != KEY
    ensures var first, second := Dict(map[KEY := Leaf(String("a"))]), Dict(map[p := Leaf(x)]);
      var s := MergeElement(MergeElement(Empty(), Id(1), first), Text("a"), second);
      Found(s, [Text("a"), p]) == Some(Leaf(x)) && Found(s, [Id(1), p]) == Some(Leaf(x))
  {
    assert !IsDigit("a") by { assert "a"[0] == 'a'; }
    var first, second := Dict(map[KEY := Leaf(String("a"))]), Dict(map[p := Leaf(x)]);
    var s := MergeElement(Empty(), Id(1), first);
    assert s == StoreNew(Empty(), Id(1), first);
    assert GetItem(s.c, Text("a")) == Some(0) && s.heap[0] == first;
    MergeCannotRaise(first, second, NoIteration());
    var both := Merge(first, second, false, NoIteration()).value;
    assert both == Dict(map[KEY := Leaf(String("a")), p := Leaf(x)]);
    var s2 := MergeElement(s, Text("a"), second);
    assert GetItem(s2.c, Text("a")) == Some(0) && GetItem(s2.c, Id(1)) == Some(0) && s2.heap[0] == both;
    LeafBelow(both, p, []);
    assert [Text("a"), p][1..] == [p] + [] && [Id(1), p][1..] == [p] + [];
  }

  // ---------- from RAM blocks to the table ----------

  /** The merge in `loop` and the conversion that follows. */
  ghost predicate Pipeline(
    blocks: seq<Data>, iterate: Iteration, raw: map<Key, Data>, order: seq<Key>, orders: string -> seq<Key>,
    out: Tables) {
    && MergeAll(Dict(map[]), blocks, true, iterate) == Some(Dict(raw))
    && Enumerates(order, raw) && OrdersItems(orders, raw)
    && ConvertFrom(map[], raw, order, orders) == Some(out)
  }

  /** For RAM blocks of one shape whose property names do not collide, every public leaf of the blocks
      is found in the resulting table, at its place. */
  lemma PipelinePlacesLeaf(blocks: seq<Data>, iterate: Iteration, raw: map<Key, Data>, order: seq<Key>,
          orders: string -> seq<Key>, out: Tables, root: string, path: Path)
    requires AllSameShape(Dict(map[]), blocks) && Pipeline(blocks, iterate, raw, order, orders, out)
    requires NonColliding(raw) && OrdinaryKeys(raw)
    requires !IsPrivate(Text(root)) && IsPublic(path) && BlockLeaf(blocks, iterate, root, path).Some?
    ensures Text(root) in raw && LeafAt(raw[Text(root)], path).Some?
    ensures Found(ElementsOf(out, ElementType(root)), Placed(Text(PropertyName(root)), raw[Text(root)], path))
         == BlockLeaf(blocks, iterate, root, path)
  {
    RawHoldsBlocks(blocks, iterate, raw, root, path);
    ConvertPlacesLeaf(raw, order, orders, out, root, path);
  }

  /** What block n holds there is found in full: with lists, the concatenation over all blocks; without,
      if n is the last block that holds something there, that. */
  lemma BlockLeafIs(blocks: seq<Data>, iterate: Iteration, root: string, path: Path, n: nat)
    requires n < |blocks| && LeafAt(blocks[n], [Text(root)] + path).Some?
    ensures (forall i | 0 <= i < |blocks| && LeafAt(blocks[i], [Text(root)] + path).Some? ::
               LeafAt(blocks[i], [Text(root)] + path).value.List?)
      ==> BlockLeaf(blocks, iterate, root, path) == Some(List(Lists(blocks, [Text(root)] + path)))
    ensures (forall i | 0 <= i < |blocks| && LeafAt(blocks[i], [Text(root)] + path).Some? ::
               !LeafAt(blocks[i], [Text(root)] + path).value.List?)
      && (forall i | n < i < |blocks| :: LeafAt(blocks[i], [Text(root)] + path).None?)
      ==> BlockLeaf(blocks, iterate, root, path) == LeafAt(blocks[n], [Text(root)] + path)
  {
    var at := [Text(root)] + path;
    if forall i | 0 <= i < |blocks| && LeafAt(blocks[i], at).Some? :: LeafAt(blocks[i], at).value.List? {
      ListsFromNothing(blocks, at, iterate, n);
    } else if (forall i | 0 <= i < |blocks| && LeafAt(blocks[i], at).Some? :: !LeafAt(blocks[i], at).value.List?)
      && (forall i | n < i < |blocks| :: LeafAt(blocks[i], at).None?) {
      LastBlockWins(None, blocks, at, true, iterate, n);
    }
  }

  /** And nothing else is. */
  lemma PipelineInventsNothing(blocks: seq<Data>, iterate: Iteration, raw: map<Key, Data>, order: seq<Key>,
          orders: string -> seq<Key>, out: Tables, t: string, place: Path)
    requires AllSameShape(Dict(map[]), blocks) && Pipeline(blocks, iterate, raw, order, orders, out)
    requires NonColliding(raw) && OrdinaryKeys(raw)
    requires Found(ElementsOf(out, t), place).Some? && NoText(Transform(place[0]), TextsOf(raw, t))
    ensures exists root, path :: ComesFrom(raw, t, Sought(place), root, path)
              && BlockLeaf(blocks, iterate, root, path) == Found(ElementsOf(out, t), place)
  {
    ConvertInventsNothing(raw, order, orders, out, t, place);
    var root, path :| ComesFrom(raw, t, Sought(place), root, path)
      && LeafAt(raw[Text(root)], path) == Found(ElementsOf(out, t), place);
    RawHoldsBlocks(blocks, iterate, raw, root, path);
  }
}
