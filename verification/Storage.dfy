/** The state store of paradox/data/memory_storage.py and the changes it publishes, on values. */
module Storage {
  import opened Wrappers
  import opened DeepMerge
  import opened Containers

  /** What `ps.sendChange` is given. */
  datatype Change = Change(container: string, objectKey: Data, property: string, newValue: Data, oldValue: Data)

  /** A new value, or a function that makes one from the old value; None where it raises. */
  datatype Update = Value(d: Data) | Convert(f: Data -> Option<Data>)

  /** The items of the `changes` dictionary. */
  type Updates = seq<(Key, Update)>

  const NIL := Leaf(Nil)

  /** `element.get` */
  function Old(p: Props, name: Key): Data {
    if name in p then p[name] else NIL
  }

  function NewValue(u: Update, before: Data): Option<Data> {
    match u
    case Value(d) => Some(d)
    case Convert(f) => f(before)
  }

  /** The new value of a property that one item of `changes` writes; None where it is passed over:
      names that are no text or private, converters that raise, and values that do not change, unless
      they are to be published all the same. */
  function Written(p: Props, name: Key, u: Update, push: bool): Option<Data> {
    if name.Id? || IsPrivate(name) then None
    else
      match NewValue(u, Old(p, name))
      case None => None
      case Some(d) => if name in p && p[name] == d && !push then None else Some(d)
  }

  /** The element's properties and what is published. */
  datatype Effect = Effect(props: Props, log: seq<Change>)

  /** One turn of the loop of `update_container_object`. */
  function ApplyOne(container: string, objectKey: Data, p: Props, name: Key, u: Update, push: bool): Effect {
    match Written(p, name, u, push)
    case None => Effect(p, [])
    case Some(d) => Effect(p[name := d], [Change(container, objectKey, name.s, d, Old(p, name))])
  }

  /** The whole loop. */
  function Apply(container: string, objectKey: Data, p: Props, updates: Updates, push: bool): Effect
    decreases |updates|
  {
    if updates == [] then Effect(p, [])
    else
      var first := ApplyOne(container, objectKey, p, updates[0].0, updates[0].1, push);
      var rest := Apply(container, objectKey, first.props, updates[1..], push);
      Effect(rest.props, first.log + rest.log)
  }

  lemma {:induction false} ApplyAppend(container: string, objectKey: Data, p: Props, updates: Updates,
          name: Key, u: Update, push: bool)
    ensures var before := Apply(container, objectKey, p, updates, push);
            var last := ApplyOne(container, objectKey, before.props, name, u, push);
            Apply(container, objectKey, p, updates + [(name, u)], push) == Effect(last.props, before.log + last.log)
    decreases |updates|
  {
    var all := updates + [(name, u)];
    if updates == [] {
      assert all[1..] == [];
    } else {
      assert all[1..] == updates[1..] + [(name, u)];
      var first := ApplyOne(container, objectKey, p, updates[0].0, updates[0].1, push);
      ApplyAppend(container, objectKey, first.props, updates[1..], name, u, push);
    }
  }

  // ---------- replaying what was published ----------

  predicate About(ch: Change, container: string, objectKey: Data, property: string) {
    ch.container == container && ch.objectKey == objectKey && ch.property == property
  }

  /** The value of a property according to the log alone, if the log has one. */
  function Replayed(log: seq<Change>, container: string, objectKey: Data, property: string): Option<Data> {
    if log == [] then None
    else if About(log[|log| - 1], container, objectKey, property) then Some(log[|log| - 1].newValue)
    else Replayed(log[..|log| - 1], container, objectKey, property)
  }

  lemma {:induction false} ReplayedAppend(xs: seq<Change>, ys: seq<Change>, container: string, objectKey: Data,
          property: string)
    ensures Replayed(xs + ys, container, objectKey, property)
         == if Replayed(ys, container, objectKey, property).Some? then Replayed(ys, container, objectKey, property)
            else Replayed(xs, container, objectKey, property)
    decreases |ys|
  {
    if ys == [] {
      assert xs + ys == xs;
    } else {
      assert (xs + ys)[..|xs + ys| - 1] == xs + ys[..|ys| - 1];
      ReplayedAppend(xs, ys[..|ys| - 1], container, objectKey, property);
    }
  }

  /** Every change of the property starts from where the one before it ended, the first from `start`. */
  predicate Chained(log: seq<Change>, container: string, objectKey: Data, property: string, start: Data)
    decreases |log|
  {
    log == [] ||
    (if About(log[0], container, objectKey, property)
     then log[0].oldValue == start && Chained(log[1..], container, objectKey, property, log[0].newValue)
     else Chained(log[1..], container, objectKey, property, start))
  }

  lemma {:induction false} ChainedAppend(xs: seq<Change>, ys: seq<Change>, container: string, objectKey: Data,
          property: string, start: Data)
    requires Chained(xs, container, objectKey, property, start)
    requires var r := Replayed(xs, container, objectKey, property);
      Chained(ys, container, objectKey, property, if r.Some? then r.value else start)
    ensures Chained(xs + ys, container, objectKey, property, start)
    decreases |xs|
  {
    if xs == [] {
      assert xs + ys == ys;
    } else {
      assert (xs + ys)[1..] == xs[1..] + ys;
      assert xs == [xs[0]] + xs[1..];
      ReplayedAppend([xs[0]], xs[1..], container, objectKey, property);
      assert [xs[0]][..0] == [];
      var next := if About(xs[0], container, objectKey, property) then xs[0].newValue else start;
      ChainedAppend(xs[1..], ys, container, objectKey, property, next);
    }
  }

  function PropertyOf(p: Props, property: string): Option<Data> {
    if Text(property) in p then Some(p[Text(property)]) else None
  }

  function OrNil(d: Option<Data>): Data {
    if d.Some? then d.value else NIL
  }

  /** `q` is what `p` became, according to the log. */
  ghost predicate Mirrors(p: Props, q: Props, log: seq<Change>, container: string, objectKey: Data) {
    forall property ::
      && (PropertyOf(q, property) == var r := Replayed(log, container, objectKey, property);
            if r.Some? then r else PropertyOf(p, property))
      && Chained(log, container, objectKey, property, OrNil(PropertyOf(p, property)))
  }

  lemma MirrorsOne(container: string, objectKey: Data, p: Props, name: Key, u: Update, push: bool)
    ensures var e := ApplyOne(container, objectKey, p, name, u, push); Mirrors(p, e.props, e.log, container, objectKey)
  {
    var e := ApplyOne(container, objectKey, p, name, u, push);
    if e.log != [] {
      assert e.log[..0] == [] && e.log[1..] == [];
      forall property
        ensures Chained(e.log, container, objectKey, property, OrNil(PropertyOf(p, property)))
      {
        assert Chained(e.log[1..], container, objectKey, property, e.log[0].newValue);
        assert Text(property) == name <==> About(e.log[0], container, objectKey, property);
      }
    }
  }

  lemma MirrorsThen(p: Props, q: Props, r: Props, xs: seq<Change>, ys: seq<Change>, container: string, objectKey: Data)
    requires Mirrors(p, q, xs, container, objectKey) && Mirrors(q, r, ys, container, objectKey)
    ensures Mirrors(p, r, xs + ys, container, objectKey)
  {
    forall property
      ensures PropertyOf(r, property) == (var l := Replayed(xs + ys, container, objectKey, property);
                if l.Some? then l else PropertyOf(p, property))
           && Chained(xs + ys, container, objectKey, property, OrNil(PropertyOf(p, property)))
    {
      ReplayedAppend(xs, ys, container, objectKey, property);
      ChainedAppend(xs, ys, container, objectKey, property, OrNil(PropertyOf(p, property)));
    }
  }

  /** What one call publishes mirrors what it stores. */
  lemma {:induction false} ApplyMirrors(container: string, objectKey: Data, p: Props, updates: Updates, push: bool)
    ensures var e := Apply(container, objectKey, p, updates, push); Mirrors(p, e.props, e.log, container, objectKey)
    decreases |updates|
  {
    if updates != [] {
      var first := ApplyOne(container, objectKey, p, updates[0].0, updates[0].1, push);
      var rest := Apply(container, objectKey, first.props, updates[1..], push);
      MirrorsOne(container, objectKey, p, updates[0].0, updates[0].1, push);
      ApplyMirrors(container, objectKey, first.props, updates[1..], push);
      MirrorsThen(p, first.props, rest.props, first.log, rest.log, container, objectKey);
    }
  }

  // ---------- silence ----------

  /** Every value is already there. */
  predicate Settled(p: Props, updates: Updates) {
    forall i | 0 <= i < |updates| && updates[i].0.Text? && !IsPrivate(updates[i].0) ::
      updates[i].1.Value? && updates[i].0 in p && p[updates[i].0] == updates[i].1.d
  }

  predicate PlainValues(updates: Updates) {
    forall i | 0 <= i < |updates| :: updates[i].1.Value?
  }

  predicate DistinctNames(updates: Updates) {
    forall i, j | 0 <= i < j < |updates| :: updates[i].0 != updates[j].0
  }

  /** Without publishing unchanged values, plain values are published exactly if one of them is not there yet. */
  lemma {:induction false} SilentIff(container: string, objectKey: Data, p: Props, updates: Updates)
    requires PlainValues(updates)
    ensures Apply(container, objectKey, p, updates, false).log == [] <==> Settled(p, updates)
    ensures Settled(p, updates) ==> Apply(container, objectKey, p, updates, false) == Effect(p, [])
    decreases |updates|
  {
    if updates != [] {
      var rest := updates[1..];
      assert forall i | 0 <= i < |rest| :: rest[i] == updates[i + 1];
      var first := ApplyOne(container, objectKey, p, updates[0].0, updates[0].1, false);
      if first.log == [] {
        SilentIff(container, objectKey, p, rest);
        assert Settled(p, updates) <==> Settled(p, rest) by {
          forall i | 0 <= i < |updates|
            ensures i > 0 ==> updates[i] == rest[i - 1]
          {}
        }
      }
    }
  }

  /** The call leaves properties alone that it does not name. */
  lemma {:induction false} ApplyLeaves(container: string, objectKey: Data, p: Props, updates: Updates,
          push: bool, name: Key)
    requires forall i | 0 <= i < |updates| :: updates[i].0 != name
    ensures var q := Apply(container, objectKey, p, updates, push).props;
      (name in q <==> name in p) && Old(q, name) == Old(p, name)
    decreases |updates|
  {
    if updates != [] {
      assert forall i | 0 <= i < |updates[1..]| :: updates[1..][i] == updates[i + 1];
      var first := ApplyOne(container, objectKey, p, updates[0].0, updates[0].1, push);
      ApplyLeaves(container, objectKey, first.props, updates[1..], push, name);
    }
  }

  lemma {:induction false} ApplySettles(container: string, objectKey: Data, p: Props, updates: Updates, push: bool)
    requires PlainValues(updates) && DistinctNames(updates)
    ensures Settled(Apply(container, objectKey, p, updates, push).props, updates)
    decreases |updates|
  {
    if updates != [] {
      var rest := updates[1..];
      assert forall i | 0 <= i < |rest| :: rest[i] == updates[i + 1];
      var first := ApplyOne(container, objectKey, p, updates[0].0, updates[0].1, push);
      ApplySettles(container, objectKey, first.props, rest, push);
      ApplyLeaves(container, objectKey, first.props, rest, push, updates[0].0);
      assert forall i | 0 < i < |updates| :: updates[i] == rest[i - 1];
    }
  }

  /** Applying the same values again publishes nothing and changes nothing. */
  lemma ReapplyIsSilent(container: string, objectKey: Data, p: Props, updates: Updates, push: bool)
    requires PlainValues(updates) && DistinctNames(updates)
    ensures var q := Apply(container, objectKey, p, updates, push).props;
      Apply(container, objectKey, q, updates, false) == Effect(q, [])
  {
    ApplySettles(container, objectKey, p, updates, push);
    SilentIff(container, objectKey, Apply(container, objectKey, p, updates, push).props, updates);
  }
}
