/** paradox/lib/handlers.py: handlers, futures and the registry that dispatches messages to them. */
module Handlers {

  /** What a check function or a callback does with a message. */
  datatype Verdict = Accept | Reject | Raise

  /** The state of a FutureHandler; a persistent handler stays Pending. */
  datatype Future<M> = Pending | Resolved(reply: M) | Cancelled

  /** A handler as a value. `check` is can_handle, `call` what the callback of a persistent handler
      does with an accepted message (a FutureHandler sets its result instead). */
  datatype View<!M> = View(persistent: bool, check: M -> Verdict, call: M -> bool, future: Future<M>)
  {
    predicate AlreadyHandled() {
      !persistent && !future.Pending?
    }

    /** Handling m makes the registry's loop stop with an exception. */
    predicate Raises(m: M) {
      && !AlreadyHandled()
      && (check(m).Raise? || (check(m).Accept? && persistent && !call(m)))
    }

    predicate Takes(m: M) {
      !AlreadyHandled() && check(m).Accept?
    }

    /** The handler after its turn. */
    function After(m: M): View<M> {
      if Takes(m) && !persistent then this.(future := Resolved(m)) else this
    }
  }

  datatype Dispatched<!M> = Dispatched(views: seq<View<M>>, handled: bool, raised: bool)

  /** `handle` over a list of handlers, in order. */
  function Dispatch<M>(vs: seq<View<M>>, m: M): (d: Dispatched<M>)
    ensures |d.views| == |vs|
  {
    if vs == [] then Dispatched([], false, false)
    else if vs[0].Raises(m) then Dispatched(vs, vs[0].Takes(m), true)
    else
      var rest := Dispatch(vs[1..], m);
      Dispatched([vs[0].After(m)] + rest.views, vs[0].Takes(m) || rest.handled, rest.raised)
  }

  /** No handler before position i stops the dispatch of m. */
  ghost predicate Reached<M>(vs: seq<View<M>>, m: M, i: nat) {
    forall k | 0 <= k < i && k < |vs| :: !vs[k].Raises(m)
  }

  lemma ReachedShift<M>(vs: seq<View<M>>, m: M, i: nat)
    requires vs != [] && !vs[0].Raises(m)
    ensures Reached(vs[1..], m, i) == Reached(vs, m, i + 1)
  {
    var rest := vs[1..];
    if Reached(vs, m, i + 1) {
      forall n | 0 <= n < i && n < |rest|
        ensures !rest[n].Raises(m)
      {
        assert rest[n] == vs[n + 1];
      }
    }
    if Reached(rest, m, i) {
      forall n | 0 <= n < i + 1 && n < |vs|
        ensures !vs[n].Raises(m)
      {
        if n > 0 { assert vs[n] == rest[n - 1]; }
      }
    }
  }

  /** What a dispatch does to each handler: a future is resolved exactly if it is pending, its check
      accepts the message, and no handler before it raises; nothing else changes. */
  lemma {:induction false} DispatchAt<M>(vs: seq<View<M>>, m: M, i: nat)
    requires i < |vs|
    ensures Dispatch(vs, m).views[i] ==
            if Reached(vs, m, i) && !vs[i].persistent && vs[i].future.Pending? && vs[i].check(m).Accept?
            then vs[i].(future := Resolved(m)) else vs[i]
  {
    if !vs[0].Raises(m) && i > 0 {
      DispatchAt(vs[1..], m, i - 1);
      ReachedShift(vs, m, i - 1);
    }
  }

  /** A dispatch raises exactly if some handler does; it counts as handled exactly if some handler
      that it reaches takes the message. */
  lemma {:induction false} DispatchFlags<M>(vs: seq<View<M>>, m: M)
    ensures Dispatch(vs, m).raised <==> exists k :: 0 <= k < |vs| && vs[k].Raises(m)
    ensures Dispatch(vs, m).handled <==> exists k :: 0 <= k < |vs| && vs[k].Takes(m) && Reached(vs, m, k)
  {
    if vs == [] {
    } else if vs[0].Raises(m) {
      if vs[0].Takes(m) { assert Reached(vs, m, 0); }
    } else {
      var rest := vs[1..];
      DispatchFlags(rest, m);
      forall k | 0 <= k < |rest|
        ensures rest[k] == vs[k + 1] && Reached(rest, m, k) == Reached(vs, m, k + 1)
      {
        ReachedShift(vs, m, k);
      }
      if Dispatch(rest, m).raised {
        var k :| 0 <= k < |rest| && rest[k].Raises(m);
        assert vs[k + 1].Raises(m);
      }
      if k :| 0 <= k < |vs| && vs[k].Raises(m) {
        assert rest[k - 1].Raises(m);
      }
      if Dispatch(rest, m).handled {
        var k :| 0 <= k < |rest| && rest[k].Takes(m) && Reached(rest, m, k);
        assert vs[k + 1].Takes(m) && Reached(vs, m, k + 1);
      }
      if vs[0].Takes(m) { assert Reached(vs, m, 0); }
      if k :| 0 <= k < |vs| && vs[k].Takes(m) && Reached(vs, m, k) {
        if k > 0 { assert rest[k - 1].Takes(m) && Reached(rest, m, k - 1); }
      }
    }
  }

  // ---------- the registry as it runs ----------

  class Handler<!M> {
    const persistent: bool
    const check: M -> Verdict
    const call: M -> bool
    var future: Future<M>

    constructor (persistent: bool, check: M -> Verdict, call: M -> bool)
      ensures GetView() == View(persistent, check, call, Pending)
    {
      this.persistent, this.check, this.call := persistent, check, call;
      future := Pending;
    }

    function GetView(): View<M>
      reads this
    {
      View(persistent, check, call, future)
    }
  }

  ghost function Views<M>(hs: seq<Handler<M>>): (vs: seq<View<M>>)
    reads hs
    ensures |vs| == |hs| && forall i | 0 <= i < |hs| :: vs[i] == hs[i].GetView()
  {
    seq(|hs|, i requires 0 <= i < |hs| reads hs => hs[i].GetView())
  }

  /** Where a handler stands first. */
  function First<H(==)>(hs: seq<H>, h: H): (i: nat)
    requires h in hs
    ensures i < |hs| && hs[i] == h && forall k | 0 <= k < |hs| && hs[k] == h :: i <= k
  {
    if hs[0] == h then 0
    else
      assert forall k | 0 < k < |hs| :: hs[k] == hs[1..][k - 1];
      First(hs[1..], h) + 1
  }

  function Firsts<H(==)>(hs: seq<H>): (ps: seq<nat>)
    ensures |ps| == |hs| && forall k | 0 <= k < |hs| :: ps[k] == First(hs, hs[k])
  {
    seq(|hs|, k requires 0 <= k < |hs| => First(hs, hs[k]))
  }

  /** Entry k stands for the entry at ps[k], which is no later and of the same view. */
  ghost predicate StandsFor<M>(vs: seq<View<M>>, ps: seq<nat>) {
    && |ps| == |vs| && (forall k | 0 <= k < |ps| :: ps[k] <= k)
    && forall k | 0 <= k < |ps| :: SameEntry(vs, ps, k)
  }

  ghost predicate SameEntry<M>(vs: seq<View<M>>, ps: seq<nat>, k: nat)
    requires k < |ps| == |vs| && ps[k] <= k
  {
    ps[ps[k]] == ps[k] && vs[ps[k]] == vs[k]
  }

  lemma FirstsStand<M>(hs: seq<Handler<M>>, vs: seq<View<M>>)
    requires |vs| == |hs| && forall j, k | 0 <= j < |hs| && 0 <= k < |hs| && hs[j] == hs[k] :: vs[j] == vs[k]
    ensures StandsFor(vs, Firsts(hs))
  {}

  class HandlerRegistry<!M> {
    var handlers: seq<Handler<M>>

    constructor ()
      ensures handlers == []
    {
      handlers := [];
    }

    /** A handler may be registered more than once. */
    method Append(handler: Handler<M>)
      modifies this
      ensures handlers == old(handlers) + [handler]
    {
      handlers := handlers + [handler];
    }

    /** list.remove: drops the first entry that is this very handler. */
    method Remove(handler: Handler<M>) returns (found: bool)
      modifies this
      ensures found <==> handler in old(handlers)
      ensures !found ==> handlers == old(handlers)
      ensures found ==> exists i :: 0 <= i < |old(handlers)| && old(handlers)[i] == handler
                                 && handler !in old(handlers)[..i]
                                 && handlers == old(handlers)[..i] + old(handlers)[i + 1..]
    {
      var i := 0;
      while i < |handlers| && handlers[i] != handler
        invariant 0 <= i <= |handlers| && handler !in handlers[..i]
      {
        i := i + 1;
      }
      found := i < |handlers|;
      if found {
        handlers := handlers[..i] + handlers[i + 1..];
      }
    }

    /** One turn of the loop of `handle`. */
    method Offer(handler: Handler<M>, m: M) returns (took: bool, raised: bool)
      modifies handler
      ensures took == old(handler.GetView()).Takes(m) && raised == old(handler.GetView()).Raises(m)
      ensures handler.GetView() == if raised then old(handler.GetView()) else old(handler.GetView()).After(m)
    {
      took, raised := false, false;
      if handler.persistent || handler.future.Pending? {
        var verdict := handler.check(m);
        if verdict.Raise? {
          raised := true;
        } else if verdict.Accept? {
          took := true;
          if !handler.persistent {
            handler.future := Resolved(m);
          } else if !handler.call(m) {
            raised := true;
          }
        }
      }
    }

    /** The turn of the handler at position i, wherever else it stands. */
    method OfferAt(i: nat, m: M) returns (took: bool, raised: bool)
      requires i < |handlers|
      modifies handlers
      ensures var v := old(handlers[i].GetView());
        && took == v.Takes(m) && raised == v.Raises(m)
        && Views(handlers)[i] == if raised then v else v.After(m)
      ensures var ps := Firsts(handlers);
        forall j | 0 <= j < |handlers| ::
          Views(handlers)[j] == if ps[j] == ps[i] then Views(handlers)[i] else old(Views(handlers)[j])
    {
      took, raised := Offer(handlers[i], m);
      SameFirst(handlers, i);
    }

    /** The turn at position i of a dispatch that started with the views vs. */
    method Turn(i: nat, m: M, handled: bool, ghost vs: seq<View<M>>) returns (handled': bool, raised: bool)
      requires i < |handlers| && Progress(vs, Views(handlers), Firsts(handlers), m, i, handled, false)
      modifies handlers
      ensures Progress(vs, Views(handlers), Firsts(handlers), m, if raised then i else i + 1, handled', raised)
    {
      ghost var now := Views(handlers);
      var took;
      took, raised := OfferAt(i, m);
      ProgressStep(vs, now, Views(handlers), Firsts(handlers), m, i, handled, took, raised);
      handled' := handled || took;
    }

    /** `handle`, run without interruption: the futures end up as Dispatch says; a handler that is
        registered more than once ends up as its first entry does. */
    method Handle(m: M) returns (handled: bool, raised: bool)
      modifies handlers
      ensures var d := Dispatch(old(Views(handlers)), m); handled == d.handled && raised == d.raised
      ensures forall k | 0 <= k < |handlers| ::
        Views(handlers)[k] == Dispatch(old(Views(handlers)), m).views[First(handlers, handlers[k])]
    {
      handled, raised := false, false;
      ghost var vs := Views(handlers);
      FirstsStand(handlers, vs);
      var i := 0;
      while i < |handlers| && !raised
        invariant 0 <= i <= |handlers|
        invariant Progress(vs, Views(handlers), Firsts(handlers), m, i, handled, raised)
        decreases |handlers| - i, !raised
      {
        handled, raised := Turn(i, m, handled, vs);
        if !raised {
          i := i + 1;
        }
      }
      ProgressEnd(vs, Views(handlers), Firsts(handlers), m, i, handled, raised);
    }
  }

  lemma SameFirst<H>(hs: seq<H>, i: nat)
    requires i < |hs|
    ensures forall j | 0 <= j < |hs| :: hs[j] == hs[i] <==> First(hs, hs[j]) == First(hs, hs[i])
  {}

  /** The turns before i have not raised; `handled` tells whether one of them took m, and so does the
      turn at i if it has raised. */
  ghost predicate Flags<M>(vs: seq<View<M>>, m: M, i: nat, handled: bool, raised: bool) {
    && i <= |vs|
    && (forall k | 0 <= k < i :: !vs[k].Raises(m) && (vs[k].Takes(m) ==> handled))
    && (handled ==> exists k :: 0 <= k < |vs| && vs[k].Takes(m) && Reached(vs, m, k))
    && (raised ==> i < |vs| && vs[i].Raises(m) && (vs[i].Takes(m) ==> handled))
  }

  /** The first i handlers have had their turn without raising; if `raised`, the next one raised. */
  ghost predicate Progress<M>(
    vs: seq<View<M>>, now: seq<View<M>>, ps: seq<nat>, m: M, i: nat, handled: bool, raised: bool) {
    && |now| == |vs| && StandsFor(vs, ps) && Flags(vs, m, i, handled, raised)
    && forall k | 0 <= k < |vs| :: now[k] == if ps[k] < i then vs[k].After(m) else vs[k]
  }

  /** The second turn of a handler that has had one. */
  lemma SecondTurn<M>(v: View<M>, m: M)
    requires !v.Raises(m)
    ensures !v.After(m).Raises(m) && (v.After(m).Takes(m) ==> v.Takes(m)) && v.After(m).After(m) == v.After(m)
  {}

  lemma FlagsStep<M>(vs: seq<View<M>>, m: M, i: nat, handled: bool, took: bool, raised: bool)
    requires Flags(vs, m, i, handled, false) && i < |vs|
    requires raised == vs[i].Raises(m) && (took ==> vs[i].Takes(m)) && (vs[i].Takes(m) ==> took || handled)
    ensures Flags(vs, m, if raised then i else i + 1, handled || took, raised)
  {
    assert Reached(vs, m, i);
  }

  lemma ProgressStep<M>(vs: seq<View<M>>, now: seq<View<M>>, next: seq<View<M>>, ps: seq<nat>, m: M, i: nat,
          handled: bool, took: bool, raised: bool)
    requires Progress(vs, now, ps, m, i, handled, false) && i < |vs|
    requires took == now[i].Takes(m) && raised == now[i].Raises(m)
    requires |next| == |now| && next[i] == if raised then now[i] else now[i].After(m)
    requires forall j | 0 <= j < |now| :: next[j] == if ps[j] == ps[i] then next[i] else now[j]
    ensures Progress(vs, next, ps, m, if raised then i else i + 1, handled || took, raised)
  {
    assert SameEntry(vs, ps, i);
    if ps[i] < i {
      SecondTurn(vs[i], m);
    }
    FlagsStep(vs, m, i, handled, took, raised);
    forall j | 0 <= j < |vs|
      ensures next[j] == if ps[j] < (if raised then i else i + 1) then vs[j].After(m) else vs[j]
    {
      assert SameEntry(vs, ps, j);
    }
  }

  /** `Flags` at the end determines what a dispatch returns. */
  lemma FlagsAtEnd<M>(vs: seq<View<M>>, m: M, i: nat, handled: bool, raised: bool, d: Dispatched<M>)
    requires Flags(vs, m, i, handled, raised) && (raised || i == |vs|)
    requires d.raised <==> exists k :: 0 <= k < |vs| && vs[k].Raises(m)
    requires d.handled <==> exists k :: 0 <= k < |vs| && vs[k].Takes(m) && Reached(vs, m, k)
    ensures d.handled == handled && d.raised == raised
  {
    forall k | 0 <= k < |vs| && vs[k].Takes(m) && Reached(vs, m, k)
      ensures handled
    {}
  }

  lemma ViewAtEnd<M>(vs: seq<View<M>>, m: M, i: nat, handled: bool, raised: bool, k: nat)
    requires Flags(vs, m, i, handled, raised) && (raised || i == |vs|) && k < |vs|
    ensures Dispatch(vs, m).views[k] == if k < i then vs[k].After(m) else vs[k]
  {
    DispatchAt(vs, m, k);
    if k > i {
      assert !Reached(vs, m, k);
    } else {
      assert Reached(vs, m, k);
    }
  }

  lemma ProgressEnd<M>(vs: seq<View<M>>, now: seq<View<M>>, ps: seq<nat>, m: M, i: nat, handled: bool, raised: bool)
    requires Progress(vs, now, ps, m, i, handled, raised) && (raised || i == |vs|)
    ensures Dispatch(vs, m).handled == handled && Dispatch(vs, m).raised == raised
    ensures forall k | 0 <= k < |vs| :: now[k] == Dispatch(vs, m).views[ps[k]]
  {
    DispatchFlags(vs, m);
    FlagsAtEnd(vs, m, i, handled, raised, Dispatch(vs, m));
    forall k | 0 <= k < |vs|
      ensures now[k] == Dispatch(vs, m).views[ps[k]]
    {
      assert SameEntry(vs, ps, k);
      ViewAtEnd(vs, m, i, handled, raised, ps[k]);
    }
  }
}
