/** `send_wait` (paradox/paradox.py) run by any number of tasks over one lock and one handler
    registry (paradox/lib/handlers.py), as a transition system. A step is a stretch of code between
    two suspension points of asyncio; timeouts, cancellations and incoming messages happen at any
    time. */
module SendWait {
  import opened Wrappers
  import opened Handlers

  /** The arguments of one call. */
  datatype Request<!M> = Request(hasMessage: bool, retries: nat, expects: Option<M -> Verdict>)

  /** Why a wait is being unwound. */
  datatype Cause = Timeout | Cancel

  datatype Outcome<M> =
    | Reply(reply: M)
    | NoReply         // returned None
    | TimedOut        // asyncio.TimeoutError
    | Disconnected    // ConnectionError
    | Aborted         // asyncio.CancelledError

  datatype Pc<M> =
    | Idle
    | Queued(attempt: nat)                   // awaiting request_lock
    | Waiting(attempt: nat)                  // holds the lock, inside wait_for
    | Unwinding(attempt: nat, cause: Cause)  // the wait is over without a reply; not resumed yet
    | Done(outcome: Outcome<M>)

  datatype Task<!M> = Task(request: Request<M>, pc: Pc<M>, writes: nat)

  datatype Lock = Free | Held(task: nat) | External

  /** Who registered a handler. */
  datatype Owner = System | Wait(task: nat, attempt: nat)

  datatype Slot<!M> = Slot(owner: Owner, view: View<M>)

  datatype State<!M> = State(connected: bool, lock: Lock, registry: seq<Slot<M>>, tasks: seq<Task<M>>)

  datatype Action<M> =
    | SetConnected(up: bool)
    | Register                 // a persistent handler is added
    | Call(task: nat)
    | CancelQueued(task: nat)
    | Acquire(task: nat)       // takes the lock, writes, registers its handler
    | Dispatch(message: M)     // HandlerRegistry.handle
    | Interrupt(task: nat, cause: Cause)
    | Finish(task: nat)        // runs the finally clauses after an interrupt
    | Resume(task: nat)        // returns the reply
    | LockExternally | UnlockExternally

  function ViewsOf<M>(registry: seq<Slot<M>>): (vs: seq<View<M>>)
    ensures |vs| == |registry|
  {
    seq(|registry|, i requires 0 <= i < |registry| => registry[i].view)
  }

  /** The registry after `handle`. */
  function Handled<M>(registry: seq<Slot<M>>, m: M): (r: seq<Slot<M>>)
    ensures |r| == |registry|
  {
    var vs := Handlers.Dispatch(ViewsOf(registry), m).views;
    seq(|registry|, i requires 0 <= i < |registry| => registry[i].(view := vs[i]))
  }

  function SetPc<M>(s: State<M>, t: nat, pc: Pc<M>): State<M>
    requires t < |s.tasks|
  {
    s.(tasks := s.tasks[t := s.tasks[t].(pc := pc)])
  }

  /** Leaving the `async with` block of attempt n without a reply and without an exception. */
  function NextAttempt<M>(request: Request<M>, n: nat): Pc<M> {
    if n + 1 <= request.retries then Queued(n + 1) else Done(NoReply)
  }

  /** Position of the handler that task t registered for attempt n. */
  ghost predicate IsSlot<M>(s: State<M>, t: nat, n: nat, i: nat) {
    i < |s.registry| && s.registry[i].owner == Wait(t, n)
  }

  function Without<M>(registry: seq<Slot<M>>, i: nat): seq<Slot<M>>
    requires i < |registry|
  {
    registry[..i] + registry[i + 1..]
  }

  /** The step that takes the lock: write, then either register the handler and wait, or leave. */
  function Entered<M>(s: State<M>, t: nat): State<M>
    requires t < |s.tasks| && s.tasks[t].pc.Queued?
  {
    var task := s.tasks[t];
    var n := task.pc.attempt;
    if task.request.hasMessage && !s.connected then
      SetPc(s, t, Done(Disconnected))
    else
      var written := task.(writes := task.writes + if task.request.hasMessage then 1 else 0);
      match task.request.expects
      case None =>
        s.(tasks := s.tasks[t := written.(pc := NextAttempt(task.request, n))])
      case Some(check) =>
        s.(lock := Held(t),
           registry := s.registry + [Slot(Wait(t, n), View(false, check, _ => true, Pending))],
           tasks := s.tasks[t := written.(pc := Waiting(n))])
  }

  /** The wait of task t is over without a reply. A pending future is cancelled; one that already
      holds a reply keeps it, but the reply is lost when the interrupt reaches the task first. */
  function Interrupted<M>(s: State<M>, t: nat, cause: Cause, i: nat): State<M>
    requires t < |s.tasks| && s.tasks[t].pc.Waiting? && i < |s.registry|
  {
    var v := s.registry[i].view;
    var v' := if v.future.Pending? then v.(future := Cancelled) else v;
    SetPc(s.(registry := s.registry[i := s.registry[i].(view := v')]), t, Unwinding(s.tasks[t].pc.attempt, cause))
  }

  /** Task t removes its handler, releases the lock and goes on at `pc`. */
  function Released<M>(s: State<M>, t: nat, i: nat, pc: Pc<M>): State<M>
    requires t < |s.tasks| && i < |s.registry|
  {
    SetPc(s.(registry := Without(s.registry, i), lock := Free), t, pc)
  }

  /** Where a task goes after an interrupt. */
  function AfterInterrupt<M>(task: Task<M>): Pc<M>
    requires task.pc.Unwinding?
  {
    if task.pc.cause.Cancel? then Done(Aborted)
    else if task.pc.attempt == task.request.retries then Done(TimedOut)
    else NextAttempt(task.request, task.pc.attempt)
  }

  // ---------- the transition relation ----------

  ghost predicate RegisterStep<M(!new)>(s: State<M>, s': State<M>) {
    && |s'.registry| == |s.registry| + 1
    && var slot := s'.registry[|s.registry|];
    && slot.owner.System? && slot.view.persistent
    && s' == s.(registry := s.registry + [slot])
  }

  /** The entry of `send_wait`. */
  function Called<M>(connected: bool, request: Request<M>): Pc<M> {
    if !connected then Done(Disconnected)
    else if request.retries == 0 then Done(NoReply)
    else Queued(1)
  }

  ghost predicate CallStep<M(!new)>(s: State<M>, t: nat, s': State<M>) {
    t < |s.tasks| && s.tasks[t].pc.Idle? && s' == SetPc(s, t, Called(s.connected, s.tasks[t].request))
  }

  ghost predicate CancelQueuedStep<M(!new)>(s: State<M>, t: nat, s': State<M>) {
    t < |s.tasks| && s.tasks[t].pc.Queued? && s' == SetPc(s, t, Done(Aborted))
  }

  ghost predicate AcquireStep<M(!new)>(s: State<M>, t: nat, s': State<M>) {
    t < |s.tasks| && s.tasks[t].pc.Queued? && s.lock.Free? && s' == Entered(s, t)
  }

  ghost predicate InterruptStep<M(!new)>(s: State<M>, t: nat, cause: Cause, s': State<M>) {
    && t < |s.tasks| && s.tasks[t].pc.Waiting?
    && exists i: nat :: IsSlot(s, t, s.tasks[t].pc.attempt, i) && s' == Interrupted(s, t, cause, i)
  }

  ghost predicate FinishStep<M(!new)>(s: State<M>, t: nat, s': State<M>) {
    && t < |s.tasks| && s.tasks[t].pc.Unwinding?
    && exists i: nat :: IsSlot(s, t, s.tasks[t].pc.attempt, i) && s' == Released(s, t, i, AfterInterrupt(s.tasks[t]))
  }

  ghost predicate ResumeStep<M(!new)>(s: State<M>, t: nat, s': State<M>) {
    && t < |s.tasks| && s.tasks[t].pc.Waiting?
    && exists i: nat ::
      && IsSlot(s, t, s.tasks[t].pc.attempt, i)
      && s.registry[i].view.future.Resolved?
      && s' == Released(s, t, i, Done(Reply(s.registry[i].view.future.reply)))
  }

  ghost predicate Step<M(!new)>(s: State<M>, a: Action<M>, s': State<M>) {
    match a
    case SetConnected(up) => s' == s.(connected := up)
    case Register => RegisterStep(s, s')
    case Call(t) => CallStep(s, t, s')
    case CancelQueued(t) => CancelQueuedStep(s, t, s')
    case Acquire(t) => AcquireStep(s, t, s')
    case Dispatch(m) => s' == s.(registry := Handled(s.registry, m))
    case Interrupt(t, cause) => InterruptStep(s, t, cause, s')
    case Finish(t) => FinishStep(s, t, s')
    case Resume(t) => ResumeStep(s, t, s')
    case LockExternally => s.lock.Free? && s' == s.(lock := External)
    case UnlockExternally => s.lock.External? && s' == s.(lock := Free)
  }

  /** Any number of calls about to start; persistent handlers may be registered already. */
  ghost predicate Init<M(!new)>(s: State<M>) {
    && !s.lock.Held?
    && (forall i | 0 <= i < |s.registry| :: s.registry[i].owner.System? && s.registry[i].view.persistent)
    && forall t | 0 <= t < |s.tasks| :: s.tasks[t].pc.Idle? && s.tasks[t].writes == 0
  }

  // ---------- the invariant ----------

  ghost predicate InSection<M>(pc: Pc<M>) {
    pc.Waiting? || pc.Unwinding?
  }

  /** Everything about one task alone: attempts stay in range, and writes count attempts. */
  ghost predicate TaskOk<M(!new)>(task: Task<M>) {
    var r := task.request;
    var w := (n: nat) => if r.hasMessage then n else 0;
    match task.pc
    case Idle => task.writes == 0
    case Queued(n) => 1 <= n <= r.retries && task.writes == w(n - 1)
    case Waiting(n) => 1 <= n <= r.retries && task.writes == w(n) && r.expects.Some?
    case Unwinding(n, _) => 1 <= n <= r.retries && task.writes == w(n) && r.expects.Some?
    case Done(outcome) =>
      && task.writes <= w(r.retries)
      && match outcome
         case Reply(m) => r.expects.Some? && r.expects.value(m).Accept? && (r.hasMessage ==> task.writes > 0)
         case NoReply => task.writes == w(r.retries) && (r.expects.None? || r.retries == 0)
         case TimedOut => r.expects.Some? && r.retries > 0 && task.writes == w(r.retries)
         case Disconnected => true
         case Aborted => true
  }

  /** A transient handler belongs to the task that holds the lock, in its current attempt. */
  ghost predicate SlotOk<M(!new)>(s: State<M>, i: nat)
    requires i < |s.registry|
  {
    var slot := s.registry[i];
    match slot.owner
    case System => slot.view.persistent
    case Wait(t, n) =>
      && s.lock == Held(t) && t < |s.tasks|
      && !slot.view.persistent && s.tasks[t].request.expects == Some(slot.view.check)
      && (s.tasks[t].pc == Waiting(n) || (s.tasks[t].pc.Unwinding? && s.tasks[t].pc.attempt == n))
      && (s.tasks[t].pc.Waiting? ==> !slot.view.future.Cancelled?)
      && (s.tasks[t].pc.Unwinding? ==> !slot.view.future.Pending?)
      && (slot.view.future.Resolved? ==> slot.view.check(slot.view.future.reply).Accept?)
  }

  ghost predicate AtMostOneTransient<M>(registry: seq<Slot<M>>) {
    forall i, j | 0 <= i < j < |registry| :: registry[i].owner.System? || registry[j].owner.System?
  }

  ghost predicate HasSlot<M>(s: State<M>, t: nat, n: nat) {
    exists i: nat :: IsSlot(s, t, n, i)
  }

  ghost predicate Inv<M(!new)>(s: State<M>) {
    && (forall t | 0 <= t < |s.tasks| :: TaskOk(s.tasks[t]))
    && (forall t | 0 <= t < |s.tasks| ::
          InSection(s.tasks[t].pc) ==> s.lock == Held(t) && HasSlot(s, t, s.tasks[t].pc.attempt))
    && (s.lock.Held? ==> s.lock.task < |s.tasks| && InSection(s.tasks[s.lock.task].pc))
    && (forall i | 0 <= i < |s.registry| :: SlotOk(s, i))
    && AtMostOneTransient(s.registry)
  }

  lemma InitInv<M(!new)>(s: State<M>)
    requires Init(s)
    ensures Inv(s)
  {}

  // ---------- every step keeps the invariant ----------

  /** What one dispatch does to the handler at position i. */
  lemma HandledAt<M>(registry: seq<Slot<M>>, m: M, i: nat)
    requires i < |registry|
    ensures var v := registry[i].view; var h := Handled(registry, m)[i];
      && h.owner == registry[i].owner
      && (h.view == v
          || (!v.persistent && v.future.Pending? && v.check(m).Accept? && h.view == v.(future := Resolved(m))))
  {
    DispatchAt(ViewsOf(registry), m, i);
  }

  lemma DispatchKeepsInv<M(!new)>(s: State<M>, m: M)
    requires Inv(s)
    ensures Inv(s.(registry := Handled(s.registry, m)))
  {
    var s' := s.(registry := Handled(s.registry, m));
    forall i | 0 <= i < |s'.registry|
      ensures SlotOk(s', i)
    {
      HandledAt(s.registry, m, i);
      assert SlotOk(s, i);
    }
    forall t | 0 <= t < |s'.tasks| && InSection(s'.tasks[t].pc)
      ensures HasSlot(s', t, s'.tasks[t].pc.attempt)
    {
      var i: nat :| IsSlot(s, t, s.tasks[t].pc.attempt, i);
      HandledAt(s.registry, m, i);
      assert IsSlot(s', t, s.tasks[t].pc.attempt, i);
    }
    forall i, j | 0 <= i < j < |s'.registry|
      ensures s'.registry[i].owner.System? || s'.registry[j].owner.System?
    {
      HandledAt(s.registry, m, i);
      HandledAt(s.registry, m, j);
    }
  }

  /** The lock holder's handler is the only transient one. */
  lemma OnlySlot<M(!new)>(s: State<M>, t: nat, n: nat, i: nat, j: nat)
    requires Inv(s) && IsSlot(s, t, n, i) && j < |s.registry| && j != i
    ensures s.registry[j].owner.System?
  {
    if i < j {} else {}
  }

  lemma ReleaseKeepsInv<M(!new)>(s: State<M>, t: nat, i: nat, pc: Pc<M>)
    requires Inv(s) && t < |s.tasks| && InSection(s.tasks[t].pc) && IsSlot(s, t, s.tasks[t].pc.attempt, i)
    requires !InSection(pc) && TaskOk(s.tasks[t].(pc := pc))
    ensures Inv(Released(s, t, i, pc))
  {
    var s' := Released(s, t, i, pc);
    forall j | 0 <= j < |s'.registry|
      ensures s'.registry[j].owner.System? && SlotOk(s', j)
    {
      var k := if j < i then j else j + 1;
      assert s'.registry[j] == s.registry[k];
      OnlySlot(s, t, s.tasks[t].pc.attempt, i, k);
      assert SlotOk(s, k);
    }
  }

  lemma InterruptKeepsInv<M(!new)>(s: State<M>, t: nat, cause: Cause, i: nat)
    requires Inv(s) && t < |s.tasks| && s.tasks[t].pc.Waiting? && IsSlot(s, t, s.tasks[t].pc.attempt, i)
    ensures Inv(Interrupted(s, t, cause, i))
  {
    var n := s.tasks[t].pc.attempt;
    var s' := Interrupted(s, t, cause, i);
    assert IsSlot(s', t, n, i);
    forall j | 0 <= j < |s'.registry|
      ensures SlotOk(s', j)
    {
      assert SlotOk(s, j);
      if j != i { OnlySlot(s, t, n, i, j); }
    }
    forall u | 0 <= u < |s'.tasks|
      ensures TaskOk(s'.tasks[u])
      ensures InSection(s'.tasks[u].pc) ==> s'.lock == Held(u) && HasSlot(s', u, s'.tasks[u].pc.attempt)
    {
      assert TaskOk(s.tasks[u]);
    }
  }

  lemma EnterKeepsInv<M(!new)>(s: State<M>, t: nat)
    requires Inv(s) && t < |s.tasks| && s.tasks[t].pc.Queued? && s.lock.Free?
    ensures Inv(Entered(s, t))
  {
    var s' := Entered(s, t);
    assert TaskOk(s.tasks[t]);
    if s.tasks[t].request.hasMessage && !s.connected {
      PcChangeKeepsInv(s, t, Done(Disconnected));
      return;
    }
    forall j | 0 <= j < |s.registry|
      ensures s.registry[j].owner.System? && SlotOk(s', j)
    {
      assert SlotOk(s, j);
    }
    forall u | 0 <= u < |s.tasks|
      ensures TaskOk(s'.tasks[u])
    {
      assert TaskOk(s.tasks[u]);
    }
    if s'.lock.Held? {
      assert IsSlot(s', t, s'.tasks[t].pc.attempt, |s.registry|);
      assert SlotOk(s', |s.registry|);
    }
  }

  lemma PcChangeKeepsInv<M(!new)>(s: State<M>, t: nat, pc: Pc<M>)
    requires Inv(s) && t < |s.tasks| && !InSection(s.tasks[t].pc) && !InSection(pc)
    requires TaskOk(s.tasks[t].(pc := pc))
    ensures Inv(SetPc(s, t, pc))
  {
    var s' := SetPc(s, t, pc);
    forall j | 0 <= j < |s.registry|
      ensures SlotOk(s', j)
    {
      assert SlotOk(s, j);
    }
    forall u | 0 <= u < |s.tasks|
      ensures TaskOk(s'.tasks[u])
      ensures InSection(s'.tasks[u].pc) ==> s'.lock == Held(u) && HasSlot(s', u, s'.tasks[u].pc.attempt)
    {
      assert TaskOk(s.tasks[u]);
      if InSection(s'.tasks[u].pc) {
        var i: nat :| IsSlot(s, u, s.tasks[u].pc.attempt, i);
        assert IsSlot(s', u, s'.tasks[u].pc.attempt, i);
      }
    }
  }

  lemma EnvironmentKeepsInv<M(!new)>(s: State<M>, s': State<M>)
    requires Inv(s) && s'.tasks == s.tasks && |s'.registry| >= |s.registry|
    requires s'.registry[..|s.registry|] == s.registry
    requires forall i | |s.registry| <= i < |s'.registry| ::
      s'.registry[i].owner.System? && s'.registry[i].view.persistent
    requires s'.lock == s.lock || (!s.lock.Held? && !s'.lock.Held?)
    ensures Inv(s')
  {
    forall i | 0 <= i < |s'.registry|
      ensures SlotOk(s', i)
      ensures i < |s.registry| ==> s'.registry[i] == s.registry[i]
    {
      if i < |s.registry| {
        assert s'.registry[..|s.registry|][i] == s.registry[i];
        assert SlotOk(s, i);
      }
    }
    forall u | 0 <= u < |s.tasks| && InSection(s'.tasks[u].pc)
      ensures s'.lock == Held(u) && HasSlot(s', u, s'.tasks[u].pc.attempt)
    {
      var i: nat :| IsSlot(s, u, s.tasks[u].pc.attempt, i);
      assert IsSlot(s', u, s'.tasks[u].pc.attempt, i);
    }
  }

  lemma CallKeepsInv<M(!new)>(s: State<M>, t: nat, s': State<M>)
    requires Inv(s) && CallStep(s, t, s')
    ensures Inv(s')
  {
    assert TaskOk(s.tasks[t]);
    PcChangeKeepsInv(s, t, Called(s.connected, s.tasks[t].request));
  }

  lemma CancelKeepsInv<M(!new)>(s: State<M>, t: nat, s': State<M>)
    requires Inv(s) && CancelQueuedStep(s, t, s')
    ensures Inv(s')
  {
    assert TaskOk(s.tasks[t]);
    PcChangeKeepsInv(s, t, Done(Aborted));
  }

  lemma InterruptStepKeepsInv<M(!new)>(s: State<M>, t: nat, cause: Cause, s': State<M>)
    requires Inv(s) && InterruptStep(s, t, cause, s')
    ensures Inv(s')
  {
    var i: nat :| IsSlot(s, t, s.tasks[t].pc.attempt, i) && s' == Interrupted(s, t, cause, i);
    InterruptKeepsInv(s, t, cause, i);
  }

  lemma FinishKeepsInv<M(!new)>(s: State<M>, t: nat, s': State<M>)
    requires Inv(s) && FinishStep(s, t, s')
    ensures Inv(s')
  {
    var i: nat :| IsSlot(s, t, s.tasks[t].pc.attempt, i) && s' == Released(s, t, i, AfterInterrupt(s.tasks[t]));
    assert TaskOk(s.tasks[t]);
    ReleaseKeepsInv(s, t, i, AfterInterrupt(s.tasks[t]));
  }

  lemma ResumeKeepsInv<M(!new)>(s: State<M>, t: nat, s': State<M>)
    requires Inv(s) && ResumeStep(s, t, s')
    ensures Inv(s')
  {
    var i: nat :| IsSlot(s, t, s.tasks[t].pc.attempt, i) && s.registry[i].view.future.Resolved?
      && s' == Released(s, t, i, Done(Reply(s.registry[i].view.future.reply)));
    assert TaskOk(s.tasks[t]) && SlotOk(s, i);
    ReleaseKeepsInv(s, t, i, Done(Reply(s.registry[i].view.future.reply)));
  }

  /** Every step keeps the invariant. */
  lemma StepKeepsInv<M(!new)>(s: State<M>, a: Action<M>, s': State<M>)
    requires Inv(s) && Step(s, a, s')
    ensures Inv(s')
  {
    match a
    case SetConnected(_) => EnvironmentKeepsInv(s, s');
    case Register => EnvironmentKeepsInv(s, s');
    case LockExternally => EnvironmentKeepsInv(s, s');
    case UnlockExternally => EnvironmentKeepsInv(s, s');
    case Call(t) => CallKeepsInv(s, t, s');
    case CancelQueued(t) => CancelKeepsInv(s, t, s');
    case Acquire(t) => EnterKeepsInv(s, t);
    case Dispatch(m) => DispatchKeepsInv(s, m);
    case Interrupt(t, cause) => InterruptStepKeepsInv(s, t, cause, s');
    case Finish(t) => FinishKeepsInv(s, t, s');
    case Resume(t) => ResumeKeepsInv(s, t, s');
  }

  // ---------- one step of one task ----------

  /** The task whose own step an action is. */
  function Actor<M>(a: Action<M>): Option<nat> {
    match a
    case Call(t) => Some(t)
    case CancelQueued(t) => Some(t)
    case Acquire(t) => Some(t)
    case Interrupt(t, _) => Some(t)
    case Finish(t) => Some(t)
    case Resume(t) => Some(t)
    case _ => None
  }

  /** Where a task goes in one step of its own. */
  predicate PcMoves<M(==)>(pc: Pc<M>, pc': Pc<M>) {
    match pc
    case Idle => pc'.Done? || pc' == Queued(1)
    case Queued(n) => pc'.Done? || pc' == Waiting(n) || pc' == Queued(n + 1)
    case Waiting(n) => pc'.Done? || (pc'.Unwinding? && pc'.attempt == n)
    case Unwinding(n, _) => pc'.Done? || pc' == Queued(n + 1)
    case Done(_) => false
  }

  /** Only the tasks of the acting task change, and it moves on. */
  ghost predicate Moves<M(!new)>(s: State<M>, u: nat, s': State<M>) {
    && u < |s.tasks| == |s'.tasks| && s'.tasks == s.tasks[u := s'.tasks[u]]
    && s'.tasks[u].request == s.tasks[u].request && PcMoves(s.tasks[u].pc, s'.tasks[u].pc)
  }

  lemma EnteredMoves<M(!new)>(s: State<M>, u: nat, s': State<M>)
    requires AcquireStep(s, u, s')
    ensures Moves(s, u, s')
  {}

  lemma FinishMoves<M(!new)>(s: State<M>, u: nat, s': State<M>)
    requires FinishStep(s, u, s')
    ensures Moves(s, u, s')
  {}

  lemma StepMoves<M(!new)>(s: State<M>, a: Action<M>, s': State<M>)
    requires Step(s, a, s')
    ensures if Actor(a).Some? then Moves(s, Actor(a).value, s') else s'.tasks == s.tasks
  {
    match a
    case Acquire(u) => EnteredMoves(s, u, s');
    case Finish(u) => FinishMoves(s, u, s');
    case Call(u) =>
    case CancelQueued(u) =>
    case Interrupt(u, cause) =>
    case Resume(u) =>
    case _ =>
  }

  /** Where a task goes, whoever acts. */
  lemma TaskMoves<M(!new)>(s: State<M>, a: Action<M>, s': State<M>, t: nat)
    requires Step(s, a, s') && t < |s.tasks|
    ensures |s'.tasks| == |s.tasks| && s'.tasks[t].request == s.tasks[t].request
    ensures if Actor(a) == Some(t) then PcMoves(s.tasks[t].pc, s'.tasks[t].pc) else s'.tasks[t] == s.tasks[t]
  {
    StepMoves(s, a, s');
  }

  // ---------- whole runs ----------

  /** The states ss visited by the actions acts. */
  ghost predicate Run<M(!new)>(ss: seq<State<M>>, acts: seq<Action<M>>) {
    && |ss| == |acts| + 1
    && Init(ss[0])
    && forall k | 0 <= k < |acts| :: StepAt(ss, acts, k)
  }

  ghost predicate StepAt<M(!new)>(ss: seq<State<M>>, acts: seq<Action<M>>, k: nat)
    requires k < |acts| == |ss| - 1
  {
    Step(ss[k], acts[k], ss[k + 1])
  }

  lemma {:induction false} RunInv<M(!new)>(ss: seq<State<M>>, acts: seq<Action<M>>, k: nat)
    requires Run(ss, acts) && k <= |acts|
    ensures Inv(ss[k])
  {
    if k == 0 {
      InitInv(ss[0]);
    } else {
      RunInv(ss, acts, k - 1);
      assert StepAt(ss, acts, k - 1);
      StepKeepsInv(ss[k - 1], acts[k - 1], ss[k]);
    }
  }

  /** In every reachable state at most one transient handler is registered, only while its owner holds
      the lock and is inside the wait that registered it, and it is the owner's own predicate. */
  lemma TransientHandlers<M(!new)>(ss: seq<State<M>>, acts: seq<Action<M>>, k: nat, i: nat)
    requires Run(ss, acts) && k <= |acts| && i < |ss[k].registry| && ss[k].registry[i].owner.Wait?
    ensures var s := ss[k]; var slot := s.registry[i]; var t := slot.owner.task;
      && s.lock == Held(t) && t < |s.tasks|
      && (s.tasks[t].pc.Waiting? || s.tasks[t].pc.Unwinding?) && s.tasks[t].pc.attempt == slot.owner.attempt
      && s.tasks[t].request.expects == Some(slot.view.check)
      && forall j | 0 <= j < |s.registry| && j != i :: s.registry[j].owner.System?
  {
    RunInv(ss, acts, k);
    var s := ss[k];
    var owner := s.registry[i].owner;
    assert SlotOk(s, i);
    forall j | 0 <= j < |s.registry| && j != i
      ensures s.registry[j].owner.System?
    {
      OnlySlot(s, owner.task, owner.attempt, i, j);
    }
  }

  /** No handler outlives its wait: a task outside the critical section owns none. */
  lemma NoLeftoverHandler<M(!new)>(ss: seq<State<M>>, acts: seq<Action<M>>, k: nat, t: nat, n: nat)
    requires Run(ss, acts) && k <= |acts| && t < |ss[k].tasks| && !InSection(ss[k].tasks[t].pc)
    ensures ss[k].lock != Held(t) && !HasSlot(ss[k], t, n)
  {
    RunInv(ss, acts, k);
    forall i | 0 <= i < |ss[k].registry|
      ensures ss[k].registry[i].owner != Wait(t, n)
    {
      assert SlotOk(ss[k], i);
    }
  }

  /** Writes and outcomes, in every reachable state. */
  lemma WritesAndOutcomes<M(!new)>(ss: seq<State<M>>, acts: seq<Action<M>>, k: nat, t: nat)
    requires Run(ss, acts) && k <= |acts| && t < |ss[k].tasks|
    ensures var task := ss[k].tasks[t]; var r := task.request;
      && task.writes <= r.retries
      && (!r.hasMessage ==> task.writes == 0)
      && (task.pc == Done(TimedOut) && r.hasMessage ==> task.writes == r.retries)
      && (task.pc == Done(NoReply) ==> r.expects.None? || r.retries == 0)
      && (task.pc == Done(NoReply) && r.hasMessage ==> task.writes == r.retries)
  {
    RunInv(ss, acts, k);
    assert TaskOk(ss[k].tasks[t]);
  }

  // ---------- where replies come from ----------

  ghost predicate SlotIn<M(!new)>(s: State<M>, t: nat, n: nat, future: Future<M>) {
    exists i: nat :: IsSlot(s, t, n, i) && s.registry[i].view.future == future
  }

  lemma SlotUnique<M(!new)>(s: State<M>, t: nat, n: nat, i: nat, j: nat)
    requires Inv(s) && IsSlot(s, t, n, i) && IsSlot(s, t, n, j)
    ensures i == j
  {
    if i != j { OnlySlot(s, t, n, i, j); }
  }

  /** While a task waits on, no other task enters or leaves the critical section. */
  lemma OthersStayOut<M(!new)>(s: State<M>, a: Action<M>, s': State<M>, t: nat, n: nat)
    requires Inv(s) && Step(s, a, s') && t < |s.tasks|
    requires s.tasks[t].pc == Waiting(n) && s'.tasks[t].pc == Waiting(n)
    ensures !a.Acquire? && !a.Interrupt? && !a.Finish? && !a.Resume?
  {
    TaskMoves(s, a, s', t);
  }

  /** A slot of a task that waits on was there before, as it is or as a dispatch found it. */
  lemma SlotWasThere<M(!new)>(s: State<M>, a: Action<M>, s': State<M>, t: nat, n: nat, i: nat)
    requires Inv(s) && Step(s, a, s') && t < |s.tasks|
    requires s.tasks[t].pc == Waiting(n) && s'.tasks[t].pc == Waiting(n)
    requires IsSlot(s', t, n, i)
    ensures IsSlot(s, t, n, i)
    ensures s'.registry[i].view.future == s.registry[i].view.future
         || exists m :: a == Action.Dispatch(m) && s.registry[i].view.future.Pending?
                        && s'.registry[i].view.future == Resolved(m)
  {
    OthersStayOut(s, a, s', t, n);
    match a
    case Dispatch(m) => HandledAt(s.registry, m, i);
    case Register =>
    case _ =>
  }

  /** A waiting task that was not waiting before has just taken the lock. */
  lemma StartedWaiting<M(!new)>(s: State<M>, a: Action<M>, s': State<M>, t: nat, n: nat)
    requires Step(s, a, s') && t < |s.tasks| && s'.tasks[t].pc == Waiting(n) && s.tasks[t].pc != Waiting(n)
    ensures AcquireStep(s, t, s')
  {
    TaskMoves(s, a, s', t);
  }

  /** A future that holds m after a step held it before, or the step dispatched m to it. */
  lemma ResolvedByDispatch<M(!new)>(s: State<M>, a: Action<M>, s': State<M>, t: nat, n: nat, m: M)
    requires Inv(s) && Step(s, a, s') && t < |s.tasks|
    requires s'.tasks[t].pc == Waiting(n) && SlotIn(s', t, n, Resolved(m))
    ensures s.tasks[t].pc == Waiting(n)
    ensures SlotIn(s, t, n, Resolved(m)) || (a == Action.Dispatch(m) && SlotIn(s, t, n, Pending))
  {
    var i: nat :| IsSlot(s', t, n, i) && s'.registry[i].view.future == Resolved(m);
    if s.tasks[t].pc == Waiting(n) {
      SlotWasThere(s, a, s', t, n, i);
    } else {
      StartedWaiting(s, a, s', t, n);
      EnteredSlots(s, t, i);
    }
  }

  /** Taking the lock leaves no slot with a reply behind. */
  lemma EnteredSlots<M(!new)>(s: State<M>, u: nat, i: nat)
    requires Inv(s) && u < |s.tasks| && s.tasks[u].pc.Queued? && s.lock.Free? && i < |Entered(s, u).registry|
    ensures var slot := Entered(s, u).registry[i]; slot.owner.System? || slot.view.future.Pending?
  {
    if i < |s.registry| { assert SlotOk(s, i); }
  }

  /** Step k hands m to the pending future of attempt n of task t. */
  ghost predicate Hands<M(!new)>(ss: seq<State<M>>, acts: seq<Action<M>>, k: nat, t: nat, n: nat, m: M) {
    && k < |acts| < |ss| && t < |ss[k].tasks|
    && acts[k] == Action.Dispatch(m) && ss[k].tasks[t].pc == Waiting(n) && SlotIn(ss[k], t, n, Pending)
  }

  lemma TasksStay<M(!new)>(s: State<M>, a: Action<M>, s': State<M>, t: nat)
    requires Step(s, a, s') && t < |s'.tasks|
    ensures t < |s.tasks| && s.tasks[t].request == s'.tasks[t].request
    ensures s.tasks[t].pc.Done? ==> s'.tasks[t].pc == s.tasks[t].pc
  {
    StepMoves(s, a, s');
  }

  lemma {:induction false} ResolvedWasHanded<M(!new)>(ss: seq<State<M>>, acts: seq<Action<M>>, k: nat, t: nat,
          n: nat, m: M)
    requires Run(ss, acts) && k <= |acts| && t < |ss[k].tasks|
    requires ss[k].tasks[t].pc == Waiting(n) && SlotIn(ss[k], t, n, Resolved(m))
    ensures exists h :: 0 <= h < k && Hands(ss, acts, h, t, n, m)
  {
    if k > 0 {
      RunInv(ss, acts, k - 1);
      assert StepAt(ss, acts, k - 1);
      TasksStay(ss[k - 1], acts[k - 1], ss[k], t);
      ResolvedByDispatch(ss[k - 1], acts[k - 1], ss[k], t, n, m);
      if SlotIn(ss[k - 1], t, n, Resolved(m)) {
        ResolvedWasHanded(ss, acts, k - 1, t, n, m);
      } else {
        assert Hands(ss, acts, k - 1, t, n, m);
      }
    }
  }

  lemma ResumedFromFuture<M(!new)>(s: State<M>, t: nat, s': State<M>)
    requires ResumeStep(s, t, s') && s'.tasks[t].pc.Done?
    ensures s'.tasks[t].pc.outcome.Reply? && SlotIn(s, t, s.tasks[t].pc.attempt, Resolved(s'.tasks[t].pc.outcome.reply))
  {}

  /** A task that has just returned m held m in its future. */
  lemma ReplyComesFromFuture<M(!new)>(s: State<M>, a: Action<M>, s': State<M>, t: nat, m: M)
    requires Step(s, a, s') && t < |s.tasks| && !s.tasks[t].pc.Done? && s'.tasks[t].pc == Done(Reply(m))
    ensures s.tasks[t].pc.Waiting? && SlotIn(s, t, s.tasks[t].pc.attempt, Resolved(m))
  {
    TaskMoves(s, a, s', t);
    match a
    case Resume(u) => ResumedFromFuture(s, u, s');
    case _ =>
  }

  ghost predicate WasHanded<M(!new)>(ss: seq<State<M>>, acts: seq<Action<M>>, k: nat, t: nat, m: M) {
    exists h, n :: 0 <= h < k && Hands(ss, acts, h, t, n, m)
  }

  lemma {:induction false} ReplyWasHanded<M(!new)>(ss: seq<State<M>>, acts: seq<Action<M>>, k: nat, t: nat, m: M)
    requires Run(ss, acts) && k <= |acts| && t < |ss[k].tasks| && ss[k].tasks[t].pc == Done(Reply(m))
    ensures WasHanded(ss, acts, k, t, m)
  {
    if k > 0 {
      RunInv(ss, acts, k - 1);
      assert StepAt(ss, acts, k - 1);
      TasksStay(ss[k - 1], acts[k - 1], ss[k], t);
      if ss[k - 1].tasks[t].pc.Done? {
        ReplyWasHanded(ss, acts, k - 1, t, m);
      } else {
        ReplyComesFromFuture(ss[k - 1], acts[k - 1], ss[k], t, m);
        ResolvedWasHanded(ss, acts, k - 1, t, ss[k - 1].tasks[t].pc.attempt, m);
      }
    }
  }

  /** A reply that a call returns satisfies its predicate, was dispatched while the handler of one of
      its attempts was registered and pending, and followed a write if there was a message to send. */
  lemma RepliesAreGenuine<M(!new)>(ss: seq<State<M>>, acts: seq<Action<M>>, k: nat, t: nat, m: M)
    requires Run(ss, acts) && k <= |acts| && t < |ss[k].tasks| && ss[k].tasks[t].pc == Done(Reply(m))
    ensures var task := ss[k].tasks[t];
      && task.request.expects.Some? && task.request.expects.value(m).Accept?
      && (task.request.hasMessage ==> task.writes > 0)
      && exists h, n :: 0 <= h < k && Hands(ss, acts, h, t, n, m)
  {
    RunInv(ss, acts, k);
    assert TaskOk(ss[k].tasks[t]);
    ReplyWasHanded(ss, acts, k, t, m);
  }

  // ---------- each future is resolved at most once ----------

  /** The future of attempt n of task t can take no reply any more. */
  ghost predicate Settled<M(!new)>(s: State<M>, t: nat, n: nat) {
    && t < |s.tasks|
    && match s.tasks[t].pc
       case Idle => false
       case Queued(k) => k > n
       case Waiting(k) => k > n || (k == n && !SlotIn(s, t, n, Pending))
       case Unwinding(k, _) => k >= n
       case Done(_) => true
  }

  /** Step k resolves the future of attempt n of task t. */
  ghost predicate Resolves<M(!new)>(s: State<M>, s': State<M>, t: nat, n: nat) {
    SlotIn(s, t, n, Pending) && exists m :: SlotIn(s', t, n, Resolved(m))
  }

  lemma PendingSlotStays<M(!new)>(s: State<M>, a: Action<M>, s': State<M>, t: nat, n: nat)
    requires Inv(s) && Step(s, a, s') && t < |s.tasks|
    requires s.tasks[t].pc == Waiting(n) && s'.tasks[t].pc == Waiting(n) && SlotIn(s', t, n, Pending)
    ensures SlotIn(s, t, n, Pending)
  {
    var i: nat :| IsSlot(s', t, n, i) && s'.registry[i].view.future.Pending?;
    SlotWasThere(s, a, s', t, n, i);
  }

  lemma SettledStays<M(!new)>(s: State<M>, a: Action<M>, s': State<M>, t: nat, n: nat)
    requires Inv(s) && Step(s, a, s') && Settled(s, t, n)
    ensures Settled(s', t, n)
  {
    TaskMoves(s, a, s', t);
    if s.tasks[t].pc == Waiting(n) && s'.tasks[t].pc == Waiting(n) && SlotIn(s', t, n, Pending) {
      PendingSlotStays(s, a, s', t, n);
    }
  }

  /** A registered future of attempt n of task t places the task. */
  lemma SlotPlacesTask<M(!new)>(s: State<M>, t: nat, n: nat, future: Future<M>)
    requires Inv(s) && SlotIn(s, t, n, future)
    ensures t < |s.tasks|
    ensures if future.Pending? then s.tasks[t].pc == Waiting(n)
            else !SlotIn(s, t, n, Pending) && InSection(s.tasks[t].pc) && s.tasks[t].pc.attempt == n
  {
    var i: nat :| IsSlot(s, t, n, i) && s.registry[i].view.future == future;
    assert SlotOk(s, i);
    if !future.Pending? {
      forall j: nat | IsSlot(s, t, n, j)
        ensures !s.registry[j].view.future.Pending?
      {
        SlotUnique(s, t, n, i, j);
      }
    }
  }

  lemma ResolvesSettles<M(!new)>(s: State<M>, a: Action<M>, s': State<M>, t: nat, n: nat)
    requires Inv(s) && Step(s, a, s') && Resolves(s, s', t, n)
    ensures !Settled(s, t, n) && Settled(s', t, n)
  {
    StepKeepsInv(s, a, s');
    SlotPlacesTask(s, t, n, Pending);
    var m :| SlotIn(s', t, n, Resolved(m));
    SlotPlacesTask(s', t, n, Resolved(m));
  }

  lemma SettledNext<M(!new)>(ss: seq<State<M>>, acts: seq<Action<M>>, k: nat, t: nat, n: nat)
    requires Run(ss, acts) && k < |acts| && Settled(ss[k], t, n)
    ensures Settled(ss[k + 1], t, n)
  {
    RunInv(ss, acts, k);
    assert StepAt(ss, acts, k);
    SettledStays(ss[k], acts[k], ss[k + 1], t, n);
  }

  lemma {:induction false} SettledForGood<M(!new)>(ss: seq<State<M>>, acts: seq<Action<M>>, j: nat, k: nat,
          t: nat, n: nat)
    requires Run(ss, acts) && j <= k <= |acts| && Settled(ss[j], t, n)
    ensures Settled(ss[k], t, n)
    decreases k
  {
    if j < k {
      SettledForGood(ss, acts, j, k - 1, t, n);
      SettledNext(ss, acts, k - 1, t, n);
    }
  }

  /** Step j resolved the future: it is settled from then on. */
  lemma SettledAfter<M(!new)>(ss: seq<State<M>>, acts: seq<Action<M>>, j: nat, t: nat, n: nat)
    requires Run(ss, acts) && j < |acts| && Resolves(ss[j], ss[j + 1], t, n)
    ensures Settled(ss[j + 1], t, n)
  {
    RunInv(ss, acts, j);
    assert StepAt(ss, acts, j);
    ResolvesSettles(ss[j], acts[j], ss[j + 1], t, n);
  }

  lemma NotResolvedAgain<M(!new)>(ss: seq<State<M>>, acts: seq<Action<M>>, j: nat, k: nat, t: nat, n: nat)
    requires Run(ss, acts) && j < k < |acts| && Resolves(ss[j], ss[j + 1], t, n)
    ensures !SlotIn(ss[k], t, n, Pending)
  {
    SettledAfter(ss, acts, j, t, n);
    SettledForGood(ss, acts, j + 1, k, t, n);
    RunInv(ss, acts, k);
    SettledTakesNone(ss[k], t, n);
  }

  lemma SettledTakesNone<M(!new)>(s: State<M>, t: nat, n: nat)
    requires Inv(s) && Settled(s, t, n)
    ensures !SlotIn(s, t, n, Pending)
  {
    if SlotIn(s, t, n, Pending) {
      SlotPlacesTask(s, t, n, Pending);
    }
  }

  /** No run resolves the same future twice. */
  lemma ResolvedOnce<M(!new)>(ss: seq<State<M>>, acts: seq<Action<M>>, j: nat, k: nat, t: nat, n: nat)
    requires Run(ss, acts) && j < |acts| && k < |acts|
    requires Resolves(ss[j], ss[j + 1], t, n) && Resolves(ss[k], ss[k + 1], t, n)
    ensures j == k
  {
    if j < k {
      NotResolvedAgain(ss, acts, j, k, t, n);
    } else if k < j {
      NotResolvedAgain(ss, acts, k, j, t, n);
    }
  }

  // ---------- termination and deadlock freedom ----------

  /** A bound on the steps a task has left. */
  function Budget<M>(task: Task<M>): int {
    var r := task.request.retries;
    match task.pc
    case Idle => 3 * r + 1
    case Queued(n) => 3 * (r - n) + 3
    case Waiting(n) => 3 * (r - n) + 2
    case Unwinding(n, _) => 3 * (r - n) + 1
    case Done(_) => 0
  }

  lemma StepSpendsBudget<M(!new)>(s: State<M>, a: Action<M>, s': State<M>, t: nat)
    requires Inv(s) && Step(s, a, s') && t < |s.tasks|
    ensures t < |s'.tasks| && 0 <= Budget(s'.tasks[t])
    ensures if Actor(a) == Some(t) then Budget(s'.tasks[t]) < Budget(s.tasks[t]) else s'.tasks[t] == s.tasks[t]
  {
    StepKeepsInv(s, a, s');
    TaskMoves(s, a, s', t);
    SpendsBudget(s.tasks[t], s'.tasks[t], Actor(a) == Some(t));
  }

  lemma SpendsBudget<M(!new)>(task: Task<M>, task': Task<M>, acts: bool)
    requires TaskOk(task) && TaskOk(task') && task'.request == task.request
    requires if acts then PcMoves(task.pc, task'.pc) else task' == task
    ensures 0 <= Budget(task') && (acts ==> Budget(task') < Budget(task))
  {}

  function OwnSteps<M>(acts: seq<Action<M>>, t: nat): nat {
    if acts == [] then 0
    else OwnSteps(acts[..|acts| - 1], t) + if Actor(acts[|acts| - 1]) == Some(t) then 1 else 0
  }

  lemma {:induction false} StepsWithinBudget<M(!new)>(ss: seq<State<M>>, acts: seq<Action<M>>, k: nat, t: nat)
    requires Run(ss, acts) && k <= |acts| && t < |ss[0].tasks|
    ensures t < |ss[k].tasks| && 0 <= Budget(ss[k].tasks[t])
    ensures OwnSteps(acts[..k], t) + Budget(ss[k].tasks[t]) <= 3 * ss[0].tasks[t].request.retries + 1
  {
    if k == 0 {
      assert ss[0].tasks[t].pc.Idle?;
    } else {
      StepsWithinBudget(ss, acts, k - 1, t);
      RunInv(ss, acts, k - 1);
      assert StepAt(ss, acts, k - 1);
      StepSpendsBudget(ss[k - 1], acts[k - 1], ss[k], t);
      assert acts[..k][..k - 1] == acts[..k - 1];
    }
  }

  /** A call takes at most 3 * retries + 1 steps of its own, however it is interleaved. */
  lemma CallsEnd<M(!new)>(ss: seq<State<M>>, acts: seq<Action<M>>, t: nat)
    requires Run(ss, acts) && t < |ss[0].tasks|
    ensures OwnSteps(acts, t) <= 3 * ss[0].tasks[t].request.retries + 1
  {
    StepsWithinBudget(ss, acts, |acts|, t);
    assert acts[..|acts|] == acts;
  }

  /** While a call is unfinished some task can move, or the external lock holder can let go. */
  lemma NeverStuck<M(!new)>(s: State<M>, t: nat) returns (a: Action<M>, s': State<M>)
    requires Inv(s) && t < |s.tasks| && !s.tasks[t].pc.Done?
    ensures Step(s, a, s') && (Actor(a).Some? || a.UnlockExternally?)
  {
    if s.tasks[t].pc.Idle? {
      a := Call(t);
      s' := SetPc(s, t, Called(s.connected, s.tasks[t].request));
      return;
    }
    match s.lock
    case External =>
      a, s' := UnlockExternally, s.(lock := Free);
    case Free =>
      a, s' := Acquire(t), Entered(s, t);
    case Held(u) =>
      var i: nat :| IsSlot(s, u, s.tasks[u].pc.attempt, i);
      if s.tasks[u].pc.Waiting? {
        a, s' := Interrupt(u, Timeout), Interrupted(s, u, Timeout, i);
      } else {
        a, s' := Finish(u), Released(s, u, i, AfterInterrupt(s.tasks[u]));
      }
  }
}
