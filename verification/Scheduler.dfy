/** The slot scheduler of the worker: the select loop, the claimer goroutine and
    the task goroutines, with the channels between them (internal/worker/worker.go).

    `Loop` holds the local variables of the select loop. Each arm of the `select`
    is a function from `Loop` to the next `Control`, so that the whole protocol is a
    transition system with one label per atomic action of one goroutine.
 */
module Scheduler {

  type Task = nat

  /** Why `Run` returned. */
  datatype Cause = ContextDone | Immediate | Drained | ClaimerGone | IdleShutdown

  /** The variables of the select loop. `idle` is `idleSince != nil`, `resOpen` is
      `workRes != nil` and `ctxArmed` is `ctxDone != nil`. */
  datatype Loop = Loop(
    free: seq<nat>, isFull: bool, idle: bool, shuttingDown: bool, resOpen: bool, ctxArmed: bool)

  /** Where the main goroutine is. */
  datatype Pc =
    | Selecting
    | Starting(pending: seq<Task>)  // inside the loop over the tasks of a response
    | Sending(n: nat)               // blocked on `workReq <- n`
    | Returned(why: Cause)
    | Panicked                      // popped from an empty `freeSlots`

  datatype Control = At(loop: Loop, pc: Pc)

  /** `Returning` is the gap between the end of `workRes <- resp` and the next receive. */
  datatype ClaimPc =
    | Parked
    | Working(n: nat)
    | Delivering(n: nat, tasks: seq<Task>)
    | Returning
    | Dead

  /** The channel made by AddGracefulTermination: its buffer, whether its one value
      has been sent, and whether it is closed. `NoStop` is the nil channel. */
  datatype Stop = NoStop | StopCh(buf: seq<bool>, sent: bool, closed: bool)

  /** History: `accepted` and `dropped` are the tasks of the responses that were used and
      discarded, `started` those handed to RunTask, all in order; `finishSeen` says that
      `stopCh` delivered `true`. */
  datatype History = History(
    accepted: seq<Task>, dropped: seq<Task>, started: seq<Task>, finishSeen: bool)

  datatype State = State(
    main: Control,
    claimer: ClaimPc,
    running: multiset<nat>,   // slots held by task goroutines
    completed: seq<nat>,      // contents of `completedTasks`
    ctxDone: bool,
    safeDone: bool,
    stop: Stop,
    hist: History)

  /** The actions of the claimer, and those of the main loop. */
  datatype ClaimAct = Retry | Obtain(tasks: seq<Task>) | GiveUp(canceled: bool) | Park | Exit

  datatype MainAct = TakeCtx | TakeStop | TakeCompleted | TakeClosed | TakeResponse(elapsed: bool) | StartOne | Request

  datatype Label =
    // environment: the parent context, the graceful stop, and the termination handler
    | CtxCancel | GracefulStop | StopPut(finish: bool) | StopClose
    | Claimer(claim: ClaimAct)
    | TaskReturn(slot: nat)
    | Main(act: MainAct)

  // ------------------------------------------------------------ the select arms

  function OnCtxDone(n: nat, l: Loop): Control {
    var l' := l.(shuttingDown := true, ctxArmed := false);
    At(l', if |l.free| == n then Returned(ContextDone) else Selecting)
  }

  function OnStop(l: Loop, finishTasks: bool): Control {
    if !finishTasks then At(l, Returned(Immediate))
    else At(l.(shuttingDown := true), Selecting)
  }

  function OnCompleted(n: nat, l: Loop, slot: nat): Control {
    var free := l.free + [slot];
    var isIdle := |free| == n;
    var l' := l.(free := free, idle := l.idle || isIdle);
    if l.shuttingDown && isIdle then At(l', Returned(Drained))
    else if l.isFull then At(l'.(isFull := false), Sending(1))
    else At(l', Selecting)
  }

  /** `workRes` was closed by the claimer. */
  function OnClosed(n: nat, l: Loop): Control {
    var l' := l.(resOpen := false, shuttingDown := true);
    At(l', if |l.free| == n then Returned(ClaimerGone) else Selecting)
  }

  /** `elapsed`: an idle limit is configured and has passed. */
  function OnResponse(l: Loop, tasks: seq<Task>, elapsed: bool): Control {
    if elapsed && tasks == [] && l.idle then At(l, Returned(IdleShutdown))
    else if l.shuttingDown then At(l, Selecting)
    else At(l, Starting(tasks))
  }

  /** One iteration of the loop over the tasks of a response, or what follows the loop. */
  function StartNext(l: Loop, pending: seq<Task>): Control {
    if pending == [] then
      if |l.free| > 0 then At(l, Sending(|l.free|)) else At(l.(isFull := true), Selecting)
    else if l.free == [] then At(l, Panicked)
    else At(l.(free := l.free[..|l.free| - 1], idle := false), Starting(pending[1..]))
  }

  // ------------------------------------------------------ the transition system

  function Iota(n: nat): (s: seq<nat>)
    ensures |s| == n && forall i :: 0 <= i < n ==> s[i] == i
  {
    seq(n, i requires 0 <= i < n => i)
  }

  function Init(n: nat, stop: Stop): State {
    State(At(Loop(Iota(n), false, true, false, true, true), Sending(n)), Parked,
          multiset{}, [], false, false, stop, History([], [], [], false))
  }

  predicate FreshStop(stop: Stop) {
    stop == NoStop || stop == StopCh([], false, false)
  }

  predicate StopReady(stop: Stop) {
    stop.StopCh? && (stop.buf != [] || stop.closed)
  }

  /** A receive from a closed and empty channel yields the zero value. */
  function StopValue(stop: Stop): bool
    requires StopReady(stop)
  {
    if stop.buf != [] then stop.buf[0] else false
  }

  function StopRest(stop: Stop): Stop
    requires StopReady(stop)
  {
    if stop.buf != [] then stop.(buf := stop.buf[1..]) else stop
  }

  predicate ClaimEnabled(s: State, a: ClaimAct) {
    match a
    case Retry => s.claimer.Working? && !s.safeDone
    case Obtain(_) => s.claimer.Working?
    case GiveUp(canceled) => s.claimer.Working? && (canceled || s.safeDone)
    case Park => s.claimer.Returning?
    case Exit => s.claimer.Parked? && s.main.pc.Returned?
  }

  predicate MainEnabled(s: State, a: MainAct) {
    match a
    case TakeCtx => s.main.pc.Selecting? && s.main.loop.ctxArmed && s.ctxDone
    case TakeStop => s.main.pc.Selecting? && StopReady(s.stop)
    case TakeCompleted => s.main.pc.Selecting? && s.completed != []
    case TakeClosed => s.main.pc.Selecting? && s.main.loop.resOpen && s.claimer.Dead?
    case TakeResponse(_) => s.main.pc.Selecting? && s.main.loop.resOpen && s.claimer.Delivering?
    case StartOne => s.main.pc.Starting?
    case Request => s.main.pc.Sending? && s.claimer.Parked?
  }

  predicate Enabled(n: nat, s: State, a: Label) {
    match a
    case CtxCancel => !s.ctxDone
    case GracefulStop => !s.safeDone
    case StopPut(_) => s.stop.StopCh? && !s.stop.sent && !s.stop.closed && |s.stop.buf| < 1
    case StopClose => s.stop.StopCh? && !s.stop.closed
    case Claimer(c) => ClaimEnabled(s, c)
    case TaskReturn(slot) => s.running[slot] > 0 && |s.completed| < n
    case Main(m) => MainEnabled(s, m)
  }

  function ClaimStep(s: State, a: ClaimAct): State
    requires ClaimEnabled(s, a)
  {
    match a
    case Retry => s
    case Obtain(tasks) => s.(claimer := Delivering(s.claimer.n, tasks))
    case GiveUp(_) => s.(claimer := Dead)
    case Park => s.(claimer := Parked)
    case Exit => s.(claimer := Dead)
  }

  /** The deferred calls of `Run`: the contexts are cancelled and `workReq` is closed. */
  function Leave(s: State): State {
    if s.main.pc.Returned? then s.(ctxDone := true, safeDone := true) else s
  }

  function ResponseStep(s: State, elapsed: bool): State
    requires MainEnabled(s, TakeResponse(elapsed))
  {
    var m := OnResponse(s.main.loop, s.claimer.tasks, elapsed);
    var h := if m.pc.Starting? then s.hist.(accepted := s.hist.accepted + s.claimer.tasks)
             else s.hist.(dropped := s.hist.dropped + s.claimer.tasks);
    Leave(s.(main := m, claimer := Returning, hist := h))
  }

  function StartStep(s: State): State
    requires MainEnabled(s, StartOne)
  {
    var l := s.main.loop;
    var m := StartNext(l, s.main.pc.pending);
    if m.pc.Starting? then
      s.(main := m, running := s.running + multiset{l.free[|l.free| - 1]},
         hist := s.hist.(started := s.hist.started + [s.main.pc.pending[0]]))
    else s.(main := m)
  }

  function MainStep(n: nat, s: State, a: MainAct): State
    requires MainEnabled(s, a)
  {
    var l := s.main.loop;
    match a
    case TakeCtx => Leave(s.(main := OnCtxDone(n, l)))
    case TakeStop =>
      var v := StopValue(s.stop);
      Leave(s.(main := OnStop(l, v), stop := StopRest(s.stop),
               hist := s.hist.(finishSeen := s.hist.finishSeen || v)))
    case TakeCompleted =>
      Leave(s.(main := OnCompleted(n, l, s.completed[0]), completed := s.completed[1..]))
    case TakeClosed => Leave(s.(main := OnClosed(n, l)))
    case TakeResponse(elapsed) => ResponseStep(s, elapsed)
    case StartOne => StartStep(s)
    case Request => s.(main := At(l, Selecting), claimer := Working(s.main.pc.n))
  }

  function Apply(n: nat, s: State, a: Label): State
    requires Enabled(n, s, a)
  {
    match a
    case CtxCancel => s.(ctxDone := true, safeDone := true)
    case GracefulStop => s.(safeDone := true)
    case StopPut(finish) => s.(stop := s.stop.(buf := [finish], sent := true))
    case StopClose => s.(stop := s.stop.(closed := true))
    case Claimer(c) => ClaimStep(s, c)
    case TaskReturn(slot) => s.(running := s.running - multiset{slot}, completed := s.completed + [slot])
    case Main(m) => MainStep(n, s, m)
  }

  /** The queue returns at most as many tasks as it was asked for. */
  predicate Honest(s: State, a: Label) {
    a.Claimer? && a.claim.Obtain? && s.claimer.Working? ==> |a.claim.tasks| <= s.claimer.n
  }

  /** `run`, a schedule of atomic actions, leads from `s` to `t`. */
  predicate Reaches(n: nat, s: State, run: seq<Label>, t: State)
    decreases |run|
  {
    if run == [] then s == t
    else Enabled(n, s, run[0]) && Honest(s, run[0]) && Reaches(n, Apply(n, s, run[0]), run[1..], t)
  }
}
