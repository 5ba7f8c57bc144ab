/** The status pipeline: RAM blocks merged by `deep_merge`, then sorted by element type, element and
    property (paradox/parsers/status.py, and `loop` in paradox/paradox.py). */
module Status {
  import opened Wrappers
  import opened DeepMerge

  predicate AllIds(m: map<Key, Data>) {
    forall k | k in m :: k.Id?
  }

  /** `_parse_raw_status` */
  function ParseRawStatus(name: Key, value: Data): (r: Data)
    ensures r.Dict?
    decreases value
  {
    if !value.Dict? then Dict(map[name := value])
    else if AllIds(value.m) then
      Dict(map k | k in value.m.Keys && !IsPrivate(k) :: ParseRawStatus(name, value.m[k]))
    else
      Dict(map k | k in value.m.Keys && !IsPrivate(k) ::
        if value.m[k].Dict? then ParseRawStatus(k, value.m[k]) else value.m[k])
  }

  // ---------- where a leaf goes ----------

  predicate IsPublic(path: Path) {
    forall k | k in path :: !IsPrivate(k)
  }

  /** Where the leaf at `path` of a value named `name` is put. */
  function Placed(name: Key, value: Data, path: Path): Path
    requires LeafAt(value, path).Some?
    decreases path
  {
    if !value.Dict? then [name]
    else
      var child := value.m[path[0]];
      if AllIds(value.m) then [path[0]] + Placed(name, child, path[1..])
      else if child.Dict? then [path[0]] + Placed(path[0], child, path[1..])
      else [path[0]]
  }

  /** Where the leaf at `path` of the parsed value came from. */
  function Origin(value: Data, path: Path): Path
    decreases path
  {
    if !value.Dict? || path == [] || path[0] !in value.m then []
    else if AllIds(value.m) || value.m[path[0]].Dict? then [path[0]] + Origin(value.m[path[0]], path[1..])
    else [path[0]]
  }

  /** Every public leaf is kept, at its place. */
  lemma {:induction false} ParseKeepsLeaf(name: Key, value: Data, path: Path)
    requires LeafAt(value, path).Some? && IsPublic(path)
    ensures LeafAt(ParseRawStatus(name, value), Placed(name, value, path)) == LeafAt(value, path)
    decreases path
  {
    if value.Dict? {
      var k, child, rest := path[0], value.m[path[0]], path[1..];
      assert k in path;
      assert IsPublic(rest);
      var r := ParseRawStatus(name, value);
      if AllIds(value.m) {
        ParseKeepsLeaf(name, child, rest);
        LeafBelow(r, k, Placed(name, child, rest));
      } else if child.Dict? {
        ParseKeepsLeaf(k, child, rest);
        LeafBelow(r, k, Placed(k, child, rest));
      } else {
        assert [k][1..] == [];
      }
    } else {
      assert [name][1..] == [];
    }
  }

  /** Every leaf of the parsed value is a public leaf, at its place: nothing is invented. */
  lemma {:induction false} ParseInventsNothing(name: Key, value: Data, path: Path)
    requires LeafAt(ParseRawStatus(name, value), path).Some?
    ensures LeafAt(value, Origin(value, path)) == LeafAt(ParseRawStatus(name, value), path)
    ensures IsPublic(Origin(value, path)) && Placed(name, value, Origin(value, path)) == path
    decreases path
  {
    if value.Dict? {
      var k, child, rest := path[0], value.m[path[0]], path[1..];
      assert path == [k] + rest;
      if AllIds(value.m) {
        ParseInventsNothing(name, child, rest);
        LeafBelow(value, k, Origin(child, rest));
      } else if child.Dict? {
        ParseInventsNothing(k, child, rest);
        LeafBelow(value, k, Origin(child, rest));
      } else {
        assert [k][1..] == [];
      }
    } else {
      assert path == [path[0]] + path[1..];
    }
  }

  /** A property of numbered elements: `{i: v}` named p is found at i, p. */
  lemma NumberedPlacement(name: Key, value: Data, i: int)
    requires value.Dict? && AllIds(value.m) && Id(i) in value.m && !value.m[Id(i)].Dict?
    ensures LeafAt(ParseRawStatus(name, value), [Id(i), name]) == Some(value.m[Id(i)])
  {
    assert [Id(i)][1..] == [];
    ParseKeepsLeaf(name, value, [Id(i)]);
    assert Placed(name, value, [Id(i)]) == [Id(i), name];
  }

  /** Numbered elements with named properties: `{i: {p: v}}` is found at i, p, whatever the name. */
  lemma FlagsPlacement(name: Key, value: Data, i: int, p: string)
    requires value.Dict? && AllIds(value.m) && Id(i) in value.m && value.m[Id(i)].Dict?
    requires Text(p) in value.m[Id(i)].m && !value.m[Id(i)].m[Text(p)].Dict? && !IsPrivate(Text(p))
    ensures LeafAt(ParseRawStatus(name, value), [Id(i), Text(p)]) == Some(value.m[Id(i)].m[Text(p)])
  {
    var path := [Id(i), Text(p)];
    var child := value.m[Id(i)];
    assert path == [Id(i)] + [Text(p)] && [Text(p)] == [Text(p)] + [];
    LeafBelow(value, Id(i), [Text(p)]);
    LeafBelow(child, Text(p), []);
    assert path[1..] == [Text(p)] && [Text(p)][1..] == [];
    ParseKeepsLeaf(name, value, path);
    assert Placed(name, value, path) == path;
  }

  // ---------- convert_raw_status on plain dictionaries ----------

  /** What stands before the first underscore. */
  function ElementType(s: string): string {
    if s == "" || s[0] == '_' then "" else [s[0]] + ElementType(s[1..])
  }

  /** What stands after the first underscore, or the element type if nothing does. */
  function PropertyName(s: string): string {
    var t := ElementType(s);
    if |s| <= |t| + 1 then t else s[|t| + 1..]
  }

  type Table = map<string, Data>

  function Parsed(root: string, value: Data): Data {
    ParseRawStatus(Text(PropertyName(root)), value)
  }

  /** What `out` holds for an element type: a defaultdict. */
  function TypeOf(out: Table, t: string): Data {
    if t in out then out[t] else Dict(map[])
  }

  /** The body of the loop of `convert_raw_status`, on plain dictionaries. */
  function Put(out: Table, root: string, value: Data): Table {
    var t := ElementType(root);
    var parsed := Parsed(root, value);
    MergeCannotRaise(TypeOf(out, t), parsed, NoIteration());
    out[t := Merge(TypeOf(out, t), parsed, false, NoIteration()).value]
  }

  /** The loop over the items in `order`; None where it raises, on a public key that is no text. */
  function PlainFrom(out: Table, raw: map<Key, Data>, order: seq<Key>): Option<Table>
    requires forall k | k in order :: k in raw
    decreases |order|
  {
    if order == [] then Some(out)
    else if IsPrivate(order[0]) then PlainFrom(out, raw, order[1..])
    else if order[0].Id? then None
    else PlainFrom(Put(out, order[0].s, raw[order[0]]), raw, order[1..])
  }

  /** The items of a dictionary, in some order. */
  predicate Enumerates(order: seq<Key>, raw: map<Key, Data>) {
    && (forall k | k in order :: k in raw) && (forall k | k in raw :: k in order)
    && forall i, j | 0 <= i < j < |order| :: order[i] != order[j]
  }

  // ---------- what ends up in the table ----------

  /** The item contributes to element type t. */
  predicate Feeds(root: Key, t: string) {
    !IsPrivate(root) && root.Text? && ElementType(root.s) == t
  }

  /** Two items of one element type have no property in common, and are of one shape. */
  ghost predicate Apart(raw: map<Key, Data>, a: Key, b: Key)
    requires a in raw && b in raw && a.Text? && b.Text?
  {
    var x, y := Parsed(a.s, raw[a]), Parsed(b.s, raw[b]);
    SameShape(x, y) && forall path :: LeafAt(x, path).None? || LeafAt(y, path).None?
  }

  ghost predicate NonColliding(raw: map<Key, Data>) {
    forall t, a, b | a in raw && b in raw && a != b && Feeds(a, t) && Feeds(b, t) :: Apart(raw, a, b)
  }

  /** What the items of `order` contribute at one path of one element type, in that order. */
  function Gather(first: Option<Data>, raw: map<Key, Data>, order: seq<Key>, t: string, path: Path): Option<Data>
    requires forall k | k in order :: k in raw
    decreases |order|
  {
    if order == [] then first
    else if Feeds(order[0], t) then
      var here := LeafAt(Parsed(order[0].s, raw[order[0]]), path);
      Gather(Combine(first, here, false, NoIteration()), raw, order[1..], t, path)
    else Gather(first, raw, order[1..], t, path)
  }

  /** What is already in the table is of one shape with what is still to come. */
  ghost predicate Ready(out: Table, raw: map<Key, Data>, order: seq<Key>, t: string)
    requires forall k | k in order :: k in raw
  {
    && (forall i | 0 <= i < |order| && Feeds(order[i], t) ::
          SameShape(TypeOf(out, t), Parsed(order[i].s, raw[order[i]])))
    && (forall i, j | 0 <= i < j < |order| && Feeds(order[i], t) && Feeds(order[j], t) ::
          SameShape(Parsed(order[i].s, raw[order[i]]), Parsed(order[j].s, raw[order[j]])))
  }

  lemma ShapeOfPut(out: Table, root: string, value: Data, z: Data)
    requires var before := TypeOf(out, ElementType(root));
      SameShape(before, Parsed(root, value)) && SameShape(before, z) && SameShape(Parsed(root, value), z)
    ensures SameShape(TypeOf(Put(out, root, value), ElementType(root)), z)
  {
    ShapeOfMerge(TypeOf(out, ElementType(root)), Parsed(root, value), z, false, NoIteration());
  }

  lemma ReadyNext(out: Table, raw: map<Key, Data>, order: seq<Key>, t: string)
    requires forall k | k in order :: k in raw
    requires order != [] && order[0].Text? && !IsPrivate(order[0]) && Ready(out, raw, order, t)
    ensures Ready(Put(out, order[0].s, raw[order[0]]), raw, order[1..], t)
  {
    var next := Put(out, order[0].s, raw[order[0]]);
    var rest := order[1..];
    assert forall i | 0 <= i < |rest| :: rest[i] == order[i + 1];
    forall i | 0 <= i < |rest| && Feeds(rest[i], t)
      ensures SameShape(TypeOf(next, t), Parsed(rest[i].s, raw[rest[i]]))
    {
      assert Feeds(order[i + 1], t);
      if ElementType(order[0].s) == t {
        ShapeOfPut(out, order[0].s, raw[order[0]], Parsed(rest[i].s, raw[rest[i]]));
      }
    }
    forall i, j | 0 <= i < j < |rest| && Feeds(rest[i], t) && Feeds(rest[j], t)
      ensures SameShape(Parsed(rest[i].s, raw[rest[i]]), Parsed(rest[j].s, raw[rest[j]]))
    {
      assert Feeds(order[i + 1], t) && Feeds(order[j + 1], t);
    }
  }

  lemma {:induction false} TableHoldsGathered(out: Table, raw: map<Key, Data>, order: seq<Key>, t: string, path: Path)
    requires forall k | k in order :: k in raw
    requires PlainFrom(out, raw, order).Some? && Ready(out, raw, order, t)
    ensures LeafAt(TypeOf(PlainFrom(out, raw, order).value, t), path)
         == Gather(LeafAt(TypeOf(out, t), path), raw, order, t, path)
    decreases |order|
  {
    if order != [] {
      var root, rest := order[0], order[1..];
      assert forall i | 0 <= i < |rest| :: rest[i] == order[i + 1];
      if IsPrivate(root) {
        TableHoldsGathered(out, raw, rest, t, path);
      } else {
        var next := Put(out, root.s, raw[root]);
        ReadyNext(out, raw, order, t);
        if Feeds(root, t) {
          SameShapeMerges(TypeOf(out, t), Parsed(root.s, raw[root]), false, NoIteration());
          LeavesKept(TypeOf(out, t), Parsed(root.s, raw[root]), false, NoIteration(), path);
        }
        TableHoldsGathered(next, raw, rest, t, path);
      }
    }
  }

  // ---------- non-colliding property names ----------

  lemma ReadyAtFirst(raw: map<Key, Data>, order: seq<Key>, t: string)
    requires Enumerates(order, raw) && NonColliding(raw)
    ensures Ready(map[], raw, order, t)
  {
    forall i, j | 0 <= i < j < |order| && Feeds(order[i], t) && Feeds(order[j], t)
      ensures SameShape(Parsed(order[i].s, raw[order[i]]), Parsed(order[j].s, raw[order[j]]))
    {
      assert order[i] in order && order[j] in order;
      assert Apart(raw, order[i], order[j]);
    }
  }

  /** The item's contribution at a path. */
  function At(raw: map<Key, Data>, root: Key, t: string, path: Path): Option<Data>
    requires root in raw
  {
    if Feeds(root, t) then LeafAt(Parsed(root.s, raw[root]), path) else None
  }

  lemma {:induction false} GatherNothing(first: Option<Data>, raw: map<Key, Data>, order: seq<Key>, t: string,
          path: Path)
    requires forall k | k in order :: k in raw && At(raw, k, t, path).None?
    ensures Gather(first, raw, order, t, path) == first
    decreases |order|
  {
    if order != [] {
      assert order[0] in order && At(raw, order[0], t, path).None?;
      GatherNothing(first, raw, order[1..], t, path);
    }
  }

  /** If one item alone contributes, its contribution is what is gathered. */
  lemma {:induction false} GatherOne(first: Option<Data>, raw: map<Key, Data>, order: seq<Key>, t: string,
          path: Path, n: nat)
    requires forall k | k in order :: k in raw
    requires n < |order| && At(raw, order[n], t, path).Some?
    requires forall i | n < i < |order| :: At(raw, order[i], t, path).None?
    ensures Gather(first, raw, order, t, path) == At(raw, order[n], t, path)
    decreases |order|
  {
    var rest := order[1..];
    assert forall i | 0 <= i < |rest| :: rest[i] == order[i + 1];
    var next := Combine(first, At(raw, order[0], t, path), false, NoIteration());
    if n == 0 {
      GatherNothing(next, raw, rest, t, path);
    } else {
      GatherOne(next, raw, rest, t, path, n - 1);
    }
  }

  /** What is gathered from nothing comes from some item. */
  lemma {:induction false} GatherFrom(first: Option<Data>, raw: map<Key, Data>, order: seq<Key>, t: string, path: Path)
    requires forall k | k in order :: k in raw
    ensures Gather(first, raw, order, t, path) == first
         || exists i | 0 <= i < |order| ::
              At(raw, order[i], t, path).Some? && Gather(first, raw, order, t, path) == At(raw, order[i], t, path)
    decreases |order|
  {
    if order != [] {
      var rest := order[1..];
      assert forall i | 0 <= i < |rest| :: rest[i] == order[i + 1];
      var next := Combine(first, At(raw, order[0], t, path), false, NoIteration());
      GatherFrom(next, raw, rest, t, path);
      if next != first {
        assert next == At(raw, order[0], t, path);
      }
    }
  }

  /** The public leaf of an item stands at its place under the item's element type. */
  lemma PlainPlacesLeaf(raw: map<Key, Data>, order: seq<Key>, out: Table, root: string, path: Path)
    requires Enumerates(order, raw) && NonColliding(raw) && PlainFrom(map[], raw, order) == Some(out)
    requires Text(root) in raw && !IsPrivate(Text(root)) && LeafAt(raw[Text(root)], path).Some? && IsPublic(path)
    ensures LeafAt(TypeOf(out, ElementType(root)), Placed(Text(PropertyName(root)), raw[Text(root)], path))
         == LeafAt(raw[Text(root)], path)
  {
    var t, value := ElementType(root), raw[Text(root)];
    var q := Placed(Text(PropertyName(root)), value, path);
    ParseKeepsLeaf(Text(PropertyName(root)), value, path);
    ReadyAtFirst(raw, order, t);
    TableHoldsGathered(map[], raw, order, t, q);
    var n :| 0 <= n < |order| && order[n] == Text(root);
    forall i | n < i < |order|
      ensures At(raw, order[i], t, q).None?
    {
      assert order[i] in order;
      if Feeds(order[i], t) {
        assert Apart(raw, Text(root), order[i]);
      }
    }
    GatherOne(None, raw, order, t, q, n);
  }

  /** The leaf of item `root` at `path` is the one that stands at `place` under element type t. */
  ghost predicate ComesFrom(raw: map<Key, Data>, t: string, place: Path, root: string, path: Path) {
    && Text(root) in raw && !IsPrivate(Text(root)) && ElementType(root) == t
    && IsPublic(path) && LeafAt(raw[Text(root)], path).Some?
    && Placed(Text(PropertyName(root)), raw[Text(root)], path) == place
  }

  /** Nothing else stands in the table. */
  lemma PlainInventsNothing(raw: map<Key, Data>, order: seq<Key>, out: Table, t: string, place: Path)
    requires Enumerates(order, raw) && NonColliding(raw) && PlainFrom(map[], raw, order) == Some(out)
    requires LeafAt(TypeOf(out, t), place).Some?
    ensures exists root, path ::
      ComesFrom(raw, t, place, root, path) && LeafAt(raw[Text(root)], path) == LeafAt(TypeOf(out, t), place)
  {
    ReadyAtFirst(raw, order, t);
    TableHoldsGathered(map[], raw, order, t, place);
    GatherFrom(None, raw, order, t, place);
    var i :| 0 <= i < |order| && At(raw, order[i], t, place).Some?
      && Gather(None, raw, order, t, place) == At(raw, order[i], t, place);
    assert order[i] in order;
    var root := order[i].s;
    ParseInventsNothing(Text(PropertyName(root)), raw[order[i]], place);
    var path := Origin(raw[order[i]], place);
    assert ComesFrom(raw, t, place, root, path);
  }

  // ---------- from RAM blocks to the table ----------

  /** What the blocks hold at one path of one item, taken together in block order: the last scalar, or
      all lists, concatenated. */
  function BlockLeaf(blocks: seq<Data>, iterate: Iteration, root: string, path: Path): Option<Data> {
    CombineAll(None, blocks, [Text(root)] + path, true, iterate)
  }

  lemma RawHoldsBlocks(blocks: seq<Data>, iterate: Iteration, raw: map<Key, Data>, root: string, path: Path)
    requires AllSameShape(Dict(map[]), blocks) && MergeAll(Dict(map[]), blocks, true, iterate) == Some(Dict(raw))
    ensures BlockLeaf(blocks, iterate, root, path) == if Text(root) in raw then LeafAt(raw[Text(root)], path) else None
  {
    MergeAllLeaves(Dict(map[]), blocks, true, iterate, [Text(root)] + path);
    LeafBelow(Dict(raw), Text(root), path);
  }
}
