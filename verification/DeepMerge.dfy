/** `deep_merge` of paradox/lib/utils.py on nested dictionaries. */
module DeepMerge {
  import opened Wrappers

  datatype Key = Id(n: int) | Text(s: string)

  datatype Scalar = Nil | Flag(b: bool) | Number(n: int) | String(s: string) | Opaque(tag: nat)

  datatype Data = Leaf(v: Scalar) | List(xs: seq<Data>) | Dict(m: map<Key, Data>)

  /** Private properties start with an underscore. */
  predicate IsPrivate(k: Key) {
    k.Text? && k.s != "" && k.s[0] == '_'
  }

  type Path = seq<Key>

  /** What `list.extend` appends for a value that is no list; None where it raises TypeError. */
  type Iteration = Data -> Option<seq<Data>>

  /** `merge_into` for a key that both sides have; None where it raises. */
  function Merge(x: Data, y: Data, extend: bool, iterate: Iteration): (r: Option<Data>)
    decreases y
  {
    if x.Dict? && y.Dict? then
      if exists k | k in x.m && k in y.m :: Merge(x.m[k], y.m[k], extend, iterate).None? then None
      else Some(Dict(map k | k in x.m.Keys + y.m.Keys ::
        if k !in x.m then y.m[k]
        else if k !in y.m then x.m[k]
        else Merge(x.m[k], y.m[k], extend, iterate).value))
    else if extend && x.List? then
      if y.List? then Some(List(x.xs + y.xs))
      else if iterate(y).None? then None
      else Some(List(x.xs + iterate(y).value))
    else Some(y)
  }

  // ---------- leaves ----------

  /** The scalar or list at a path through nested dictionaries. */
  function LeafAt(d: Data, path: Path): Option<Data> {
    if !d.Dict? then
      if path == [] then Some(d) else None
    else if path == [] || path[0] !in d.m then None
    else LeafAt(d.m[path[0]], path[1..])
  }

  /** What a merge promises for one path: the later leaf, or both lists in order. */
  function Combine(x: Option<Data>, y: Option<Data>, extend: bool, iterate: Iteration): Option<Data> {
    if x.None? then y
    else if y.None? then x
    else if !extend || !x.value.List? then y
    else if y.value.List? then Some(List(x.value.xs + y.value.xs))
    else if iterate(y.value).None? then None
    else Some(List(x.value.xs + iterate(y.value).value))
  }

  ghost predicate HasLeaf(d: Data) {
    exists path :: LeafAt(d, path).Some?
  }

  /** No leaf of either side stands where the other has a dictionary that would displace it. */
  ghost predicate NoClash(x: Data, y: Data, extend: bool, iterate: Iteration)
    decreases y
  {
    if x.Dict? && y.Dict? then
      forall k | k in x.m && k in y.m :: NoClash(x.m[k], y.m[k], extend, iterate)
    else if x.Dict? then !HasLeaf(x)
    else if y.Dict? then extend && x.List? && iterate(y) == Some([]) && !HasLeaf(y)
    else true
  }

  /** Every path of the merge holds what the two sides have there. */
  ghost predicate KeepsLeaves(x: Data, y: Data, r: Data, extend: bool, iterate: Iteration) {
    forall path :: LeafAt(r, path) == Combine(LeafAt(x, path), LeafAt(y, path), extend, iterate)
  }

  lemma LeafBelow(d: Data, k: Key, path: Path)
    requires d.Dict?
    ensures LeafAt(d, [k] + path) == if k in d.m then LeafAt(d.m[k], path) else None
  {
    assert ([k] + path)[1..] == path;
  }

  lemma {:induction false} LeavesKept(x: Data, y: Data, extend: bool, iterate: Iteration, path: Path)
    requires Merge(x, y, extend, iterate).Some? && NoClash(x, y, extend, iterate)
    ensures LeafAt(Merge(x, y, extend, iterate).value, path)
         == Combine(LeafAt(x, path), LeafAt(y, path), extend, iterate)
    decreases y
  {
    if x.Dict? && y.Dict? {
      if path != [] && path[0] in x.m && path[0] in y.m {
        LeavesKept(x.m[path[0]], y.m[path[0]], extend, iterate, path[1..]);
      }
    } else if x.Dict? {
      assert LeafAt(x, path).None?;
    } else if y.Dict? {
      assert LeafAt(y, path).None?;
      assert x.xs + [] == x.xs;
    }
  }

  lemma {:induction false} KeptMeansNoClash(x: Data, y: Data, extend: bool, iterate: Iteration)
    requires Merge(x, y, extend, iterate).Some?
    requires KeepsLeaves(x, y, Merge(x, y, extend, iterate).value, extend, iterate)
    ensures NoClash(x, y, extend, iterate)
    decreases y
  {
    var r := Merge(x, y, extend, iterate).value;
    if x.Dict? && y.Dict? {
      forall k | k in x.m && k in y.m
        ensures NoClash(x.m[k], y.m[k], extend, iterate)
      {
        forall path
          ensures LeafAt(r.m[k], path) == Combine(LeafAt(x.m[k], path), LeafAt(y.m[k], path), extend, iterate)
        {
          LeafBelow(r, k, path);
          LeafBelow(x, k, path);
          LeafBelow(y, k, path);
          assert LeafAt(r, [k] + path) == Combine(LeafAt(x, [k] + path), LeafAt(y, [k] + path), extend, iterate);
        }
        KeptMeansNoClash(x.m[k], y.m[k], extend, iterate);
      }
    } else if x.Dict? {
      forall path
        ensures LeafAt(x, path).None?
      {
        assert LeafAt(r, path) == Combine(LeafAt(x, path), LeafAt(y, path), extend, iterate);
      }
    } else if y.Dict? {
      assert LeafAt(r, []) == Combine(LeafAt(x, []), LeafAt(y, []), extend, iterate);
      assert r == x && extend && x.List?;
      assert |x.xs + iterate(y).value| == |x.xs|;
      forall path
        ensures LeafAt(y, path).None?
      {
        assert LeafAt(r, path) == Combine(LeafAt(x, path), LeafAt(y, path), extend, iterate);
      }
    }
  }

  /** A merge keeps every leaf of both sides in place exactly when they do not clash. */
  lemma MergeKeepsLeavesIff(x: Data, y: Data, extend: bool, iterate: Iteration)
    requires Merge(x, y, extend, iterate).Some?
    ensures KeepsLeaves(x, y, Merge(x, y, extend, iterate).value, extend, iterate) <==> NoClash(x, y, extend, iterate)
  {
    if NoClash(x, y, extend, iterate) {
      forall path
        ensures LeafAt(Merge(x, y, extend, iterate).value, path)
             == Combine(LeafAt(x, path), LeafAt(y, path), extend, iterate)
      {
        LeavesKept(x, y, extend, iterate, path);
      }
    } else if KeepsLeaves(x, y, Merge(x, y, extend, iterate).value, extend, iterate) {
      KeptMeansNoClash(x, y, extend, iterate);
    }
  }

  /** A leaf under a key whose later value is a dictionary is lost. */
  lemma DictDisplacesLeaf(k: Key, v: Scalar, d: Data, iterate: Iteration)
    requires d.Dict?
    ensures var x, y := Dict(map[k := Leaf(v)]), Dict(map[k := d]);
      Merge(x, y, false, iterate) == Some(y) && !KeepsLeaves(x, y, y, false, iterate)
  {
    var x, y := Dict(map[k := Leaf(v)]), Dict(map[k := d]);
    assert Merge(x.m[k], y.m[k], false, iterate) == Some(d);
    assert Merge(x, y, false, iterate).value.m == y.m;
    assert k in x.m && k in y.m && !NoClash(x.m[k], y.m[k], false, iterate);
    MergeKeepsLeavesIff(x, y, false, iterate);
  }

  function NoIteration(): Iteration {
    (d: Data) => None
  }

  /** A merge that does not extend lists cannot raise. */
  lemma {:induction false} MergeCannotRaise(x: Data, y: Data, iterate: Iteration)
    ensures Merge(x, y, false, iterate).Some?
    decreases y
  {
    if x.Dict? && y.Dict? {
      forall k | k in x.m && k in y.m
        ensures Merge(x.m[k], y.m[k], false, iterate).Some?
      {
        MergeCannotRaise(x.m[k], y.m[k], iterate);
      }
    }
  }

  // ---------- shape-compatible data ----------

  /** The same kind of data at every key both have. */
  predicate SameShape(x: Data, y: Data)
    decreases y
  {
    if x.Dict? && y.Dict? then forall k | k in x.m && k in y.m :: SameShape(x.m[k], y.m[k])
    else x.List? == y.List? && x.Dict? == y.Dict?
  }

  /** Data of one shape merges without an error or a clash, and the result is of that shape. */
  lemma {:induction false} SameShapeMerges(x: Data, y: Data, extend: bool, iterate: Iteration)
    requires SameShape(x, y)
    ensures Merge(x, y, extend, iterate).Some? && NoClash(x, y, extend, iterate)
    decreases y
  {
    if x.Dict? && y.Dict? {
      forall k | k in x.m && k in y.m
        ensures Merge(x.m[k], y.m[k], extend, iterate).Some? && NoClash(x.m[k], y.m[k], extend, iterate)
      {
        SameShapeMerges(x.m[k], y.m[k], extend, iterate);
      }
    }
  }

  lemma {:induction false} ShapeOfMerge(x: Data, y: Data, z: Data, extend: bool, iterate: Iteration)
    requires SameShape(x, y) && SameShape(x, z) && SameShape(y, z)
    ensures Merge(x, y, extend, iterate).Some? && SameShape(Merge(x, y, extend, iterate).value, z)
    decreases z
  {
    SameShapeMerges(x, y, extend, iterate);
    if x.Dict? {
      var r := Merge(x, y, extend, iterate).value;
      forall k | k in r.m && k in z.m
        ensures SameShape(r.m[k], z.m[k])
      {
        if k in x.m && k in y.m {
          ShapeOfMerge(x.m[k], y.m[k], z.m[k], extend, iterate);
        }
      }
    }
  }

  // ---------- deep_merge ----------

  /** `functools.reduce(merge_into, dicts, first)` from a dictionary `first`. */
  function MergeAll(first: Data, blocks: seq<Data>, extend: bool, iterate: Iteration): Option<Data>
    decreases |blocks|
  {
    if blocks == [] then Some(first)
    else
      match Merge(first, blocks[0], extend, iterate)
      case None => None
      case Some(next) => MergeAll(next, blocks[1..], extend, iterate)
  }

  /** What the blocks hold at one path, taken together in block order. */
  function CombineAll(first: Option<Data>, blocks: seq<Data>, path: Path, extend: bool,
          iterate: Iteration): Option<Data>
    decreases |blocks|
  {
    if blocks == [] then first
    else CombineAll(Combine(first, LeafAt(blocks[0], path), extend, iterate), blocks[1..], path, extend, iterate)
  }

  predicate AllSameShape(first: Data, blocks: seq<Data>) {
    && (forall i | 0 <= i < |blocks| :: SameShape(first, blocks[i]))
    && (forall i, j | 0 <= i < j < |blocks| :: SameShape(blocks[i], blocks[j]))
  }

  /** `deep_merge` of blocks of one shape never raises, and holds at every path exactly what the blocks
      hold there, taken together in block order. */
  lemma {:induction false} MergeAllLeaves(first: Data, blocks: seq<Data>, extend: bool, iterate: Iteration, path: Path)
    requires AllSameShape(first, blocks)
    ensures MergeAll(first, blocks, extend, iterate).Some?
    ensures LeafAt(MergeAll(first, blocks, extend, iterate).value, path)
         == CombineAll(LeafAt(first, path), blocks, path, extend, iterate)
    decreases |blocks|
  {
    if blocks != [] {
      SameShapeMerges(first, blocks[0], extend, iterate);
      LeavesKept(first, blocks[0], extend, iterate, path);
      var next := Merge(first, blocks[0], extend, iterate).value;
      forall i | 0 <= i < |blocks[1..]|
        ensures SameShape(next, blocks[1..][i])
      {
        assert SameShape(blocks[0], blocks[i + 1]) && SameShape(first, blocks[i + 1]);
        ShapeOfMerge(first, blocks[0], blocks[i + 1], extend, iterate);
      }
      assert AllSameShape(next, blocks[1..]);
      MergeAllLeaves(next, blocks[1..], extend, iterate, path);
    }
  }

  /** The lists at one path of the blocks that have one there, in block order. */
  function Lists(blocks: seq<Data>, path: Path): seq<Data>
    decreases |blocks|
  {
    if blocks == [] then []
    else (match LeafAt(blocks[0], path)
          case Some(List(xs)) => xs
          case _ => []) + Lists(blocks[1..], path)
  }

  /** A path at which some block has a list holds the concatenation of the blocks' lists. */
  lemma {:induction false} ListsConcatenated(xs: seq<Data>, blocks: seq<Data>, path: Path, iterate: Iteration)
    requires forall i | 0 <= i < |blocks| && LeafAt(blocks[i], path).Some? :: LeafAt(blocks[i], path).value.List?
    ensures CombineAll(Some(List(xs)), blocks, path, true, iterate) == Some(List(xs + Lists(blocks, path)))
    decreases |blocks|
  {
    if blocks == [] {
      assert xs + [] == xs;
    } else {
      assert forall i | 0 <= i < |blocks[1..]| :: blocks[1..][i] == blocks[i + 1];
      var more := match LeafAt(blocks[0], path) case Some(List(ys)) => ys case _ => [];
      assert xs + [] == xs;
      ListsConcatenated(xs + more, blocks[1..], path, iterate);
      assert (xs + more) + Lists(blocks[1..], path) == xs + (more + Lists(blocks[1..], path));
    }
  }

  /** The same from nothing, when some block n has a list at the path. */
  lemma {:induction false} ListsFromNothing(blocks: seq<Data>, path: Path, iterate: Iteration, n: nat)
    requires forall i | 0 <= i < |blocks| && LeafAt(blocks[i], path).Some? :: LeafAt(blocks[i], path).value.List?
    requires n < |blocks| && LeafAt(blocks[n], path).Some?
    ensures CombineAll(None, blocks, path, true, iterate) == Some(List(Lists(blocks, path)))
    decreases |blocks|
  {
    assert forall i | 0 <= i < |blocks[1..]| :: blocks[1..][i] == blocks[i + 1];
    match LeafAt(blocks[0], path)
    case Some(first) =>
      ListsConcatenated(first.xs, blocks[1..], path, iterate);
    case None =>
      ListsFromNothing(blocks[1..], path, iterate, n - 1);
      assert [] + Lists(blocks[1..], path) == Lists(blocks[1..], path);
  }

  /** A path at which the blocks hold scalars, or lists that are not extended, holds the last of them. */
  lemma {:induction false} LastBlockWins(first: Option<Data>, blocks: seq<Data>, path: Path, extend: bool,
          iterate: Iteration, last: nat)
    requires last < |blocks| && LeafAt(blocks[last], path).Some?
    requires forall i | last < i < |blocks| :: LeafAt(blocks[i], path).None?
    requires extend ==> first.Some? ==> !first.value.List?
    requires extend ==>
      forall i | 0 <= i < |blocks| && LeafAt(blocks[i], path).Some? :: !LeafAt(blocks[i], path).value.List?
    ensures CombineAll(first, blocks, path, extend, iterate) == LeafAt(blocks[last], path)
    decreases |blocks|
  {
    assert forall i | 0 <= i < |blocks[1..]| :: blocks[1..][i] == blocks[i + 1];
    var next := Combine(first, LeafAt(blocks[0], path), extend, iterate);
    if last == 0 {
      NothingMore(next, blocks[1..], path, extend, iterate);
    } else {
      LastBlockWins(next, blocks[1..], path, extend, iterate, last - 1);
    }
  }

  lemma {:induction false} NothingMore(first: Option<Data>, blocks: seq<Data>, path: Path, extend: bool,
          iterate: Iteration)
    requires forall i | 0 <= i < |blocks| :: LeafAt(blocks[i], path).None?
    ensures CombineAll(first, blocks, path, extend, iterate) == first
    decreases |blocks|
  {
    if blocks != [] {
      assert forall i | 0 <= i < |blocks[1..]| :: blocks[1..][i] == blocks[i + 1];
      NothingMore(first, blocks[1..], path, extend, iterate);
    }
  }
}
