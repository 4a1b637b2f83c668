/** One task run from claim to report: `RunTask` around `runTaskLogic` around the pipeline
    (internal/worker/run.go:300-500). */
module TaskRun {
  import opened Pipeline
  import PipelineProofs

  datatype Report = Completed | TaskFailed | TaskException(reason: string)

  /** What `RunTask` does to the live log and tells the queue, in order. */
  datatype Act = LogClosed | LogUploaded | Reported(report: Report)

  /** The calls of runTaskLogic before the pipeline; each can fail with an exception value. */
  datatype Stage = ParsePayload | CreateSandbox | PullProxy | CreateProxy

  datatype LogicPc =
    | NotStarted
    | Prologue(stage: Stage)
    | Piping
    | Delivering(v: Val)   // at `doneCh <- err`
    | Delivered(v: Val)

  /** `RunTask`: before the redirect artifact, in its select loop, or in its deferred calls. */
  datatype TaskPc =
    | Begin | Waits
    | Leaving(v: Val) | Closed(v: Val) | Uploaded(v: Val) | Finished(v: Val)

  datatype State = State(
    pc: TaskPc, logic: LogicPc, pipe: Pipeline.State,
    reclaimFired: bool,    // the one value of `reclaimCh` has been received
    redirected: bool,      // the redirect artifact was created
    trace: seq<Act>)

  datatype Label =
    | Redirect(ok: bool)
    | Reclaim(ok: bool)
    | StageEnds(ok: bool)
    | InPipe(pipe: Pipeline.Label)
    | LogicReturns
    | ReceiveDone
    | CloseLog | UploadLog | SendReport

  const INTERNAL: string := "internal-error"
  const MALFORMED: string := "malformed-payload"

  /** The initial value of `exitErr`. */
  function NeverFinished(): Val { Failed(Exception(INTERNAL)) }

  function StageError(stage: Stage): Val {
    Failed(Exception(if stage == ParsePayload then MALFORMED else INTERNAL))
  }

  function AfterStage(stage: Stage): LogicPc {
    match stage
    case ParsePayload => Prologue(CreateSandbox)
    case CreateSandbox => Prologue(PullProxy)
    case PullProxy => Prologue(CreateProxy)
    case CreateProxy => Piping
  }

  function ReportOf(v: Val): Report {
    match v
    case Nil => Completed
    case Failed(Exception(kind)) => TaskException(kind)
    case Failed(Plain(_)) => TaskFailed
  }

  function Init(n: nat, m: nat): State {
    State.State(Begin, NotStarted, Pipeline.Init(n, m), false, false, [])
  }

  /** The goroutines of the pipeline exist; they go on after runTaskLogic has returned. */
  predicate Started(s: State) {
    s.logic.Piping? || ((s.logic.Delivering? || s.logic.Delivered?) && !s.pipe.main.Wiring?)
  }

  predicate Enabled(s: State, a: Label) {
    match a
    case Redirect(_) => s.pc.Begin?
    case Reclaim(_) => s.pc.Waits? && !s.reclaimFired
    case StageEnds(_) => s.logic.Prologue?
    case InPipe(l) => Started(s) && Pipeline.Enabled(s.pipe, l)
    case LogicReturns => s.logic.Piping? && (s.pipe.main.FromNext? || s.pipe.main.FromExit?)
    case ReceiveDone => s.pc.Waits? && s.logic.Delivering?
    case CloseLog => s.pc.Leaving?
    case UploadLog => s.pc.Closed?
    case SendReport => s.pc.Uploaded?
  }

  function Apply(s: State, a: Label): State
    requires Enabled(s, a)
  {
    match a
    case Redirect(ok) =>
      if ok then s.(pc := Waits, logic := Prologue(ParsePayload), redirected := true)
      else s.(pc := Leaving(NeverFinished()), trace := s.trace + [Reported(TaskException(INTERNAL))])
    case Reclaim(ok) =>
      if ok then s.(reclaimFired := true)
      else s.(reclaimFired := true, pc := Leaving(NeverFinished()))
    case StageEnds(ok) =>
      s.(logic := if ok then AfterStage(s.logic.stage) else Delivering(StageError(s.logic.stage)))
    case InPipe(l) => s.(pipe := Pipeline.Apply(s.pipe, l))
    case LogicReturns => s.(logic := Delivering(s.pipe.main.v))
    case ReceiveDone => s.(pc := Leaving(s.logic.v), logic := Delivered(s.logic.v))
    case CloseLog => s.(pc := Closed(s.pc.v), trace := s.trace + [LogClosed])
    case UploadLog => s.(pc := Uploaded(s.pc.v), trace := s.trace + [LogUploaded])
    case SendReport => s.(pc := Finished(s.pc.v), trace := s.trace + [Reported(ReportOf(s.pc.v))])
  }

  predicate Reaches(s: State, run: seq<Label>, t: State)
    decreases |run|
  {
    if run == [] then s == t
    else Enabled(s, run[0]) && Reaches(Apply(s, run[0]), run[1..], t)
  }

  // ------------------------------------------------------ `RunTask` itself

  datatype Arrival = ReclaimDue(ok: bool) | Done(v: Val)

  /** What leaves the select loop: the result of the task, or a failed reclaim. The timer
      channel delivers once. */
  function ExitOf(arrivals: seq<Arrival>, reclaimFired: bool): (r: (bool, Val))
    decreases |arrivals|
  {
    if arrivals == [] then (false, NeverFinished())
    else
      match arrivals[0]
      case Done(v) => (true, v)
      case ReclaimDue(ok) =>
        if !reclaimFired && !ok then (true, NeverFinished()) else ExitOf(arrivals[1..], true)
  }

  function Epilogue(v: Val): seq<Act> { [LogClosed, LogUploaded, Reported(ReportOf(v))] }

  /** All that `RunTask` does when it ends with `v`: with no redirect it reports twice. */
  function FullTrace(redirected: bool, v: Val): seq<Act> {
    (if redirected then [] else [Reported(TaskException(INTERNAL))]) + Epilogue(v)
  }

  class Runner {
    var exitErr: Val
    var trace: seq<Act>

    constructor ()
      ensures exitErr == NeverFinished() && trace == []
    {
      exitErr := NeverFinished();
      trace := [];
    }

    /** The deferred block. */
    method Conclude()
      modifies this
      ensures exitErr == old(exitErr) && trace == old(trace) + Epilogue(exitErr)
    {
      trace := trace + [LogClosed];
      trace := trace + [LogUploaded];
      if exitErr == Nil {
        trace := trace + [Reported(Completed)];
      } else if exitErr.error.Exception? {
        trace := trace + [Reported(TaskException(exitErr.error.kind))];
      } else {
        trace := trace + [Reported(TaskFailed)];
      }
    }

    /** `ended` is false while the task neither finished nor lost its claim. */
    method Run(redirectOk: bool, arrivals: seq<Arrival>) returns (ended: bool)
      requires exitErr == NeverFinished() && trace == []
      modifies this
      ensures ended <==> !redirectOk || ExitOf(arrivals, false).0
      ensures trace == if !ended then []
                       else FullTrace(redirectOk, if redirectOk then ExitOf(arrivals, false).1 else NeverFinished())
    {
      if !redirectOk {
        trace := trace + [Reported(TaskException(INTERNAL))];
        Conclude();
        return true;
      }
      var i := 0;
      var reclaimFired := false;
      ended := false;
      while i < |arrivals| && !ended
        invariant 0 <= i <= |arrivals| && trace == []
        invariant !ended ==> exitErr == NeverFinished() &&
                             ExitOf(arrivals[i..], reclaimFired) == ExitOf(arrivals, false)
        invariant ended ==> ExitOf(arrivals, false) == (true, exitErr)
      {
        assert arrivals[i..][0] == arrivals[i] && arrivals[i..][1..] == arrivals[i + 1..];
        match arrivals[i] {
          case ReclaimDue(ok) =>
            if !reclaimFired && !ok {
              ended := true;
            }
            reclaimFired := true;
          case Done(v) =>
            exitErr := v;
            ended := true;
        }
        i := i + 1;
      }
      if ended {
        Conclude();
      }
    }
  }

  // ------------------------------------------------------------ the invariant

  /** What the pipeline's select returned. */
  predicate PipeReturned(p: Pipeline.State, v: Val) {
    (p.main.FromNext? || p.main.FromExit?) && p.main.v == v
  }

  /** The pipeline was never begun, because a call before it failed with an exception. */
  predicate NoPipe(p: Pipeline.State, v: Val) {
    p.main.Wiring? && v.Failed? && v.error.Exception?
  }

  predicate LogicInv(s: State) {
    && (s.redirected <==> !s.logic.NotStarted?)
    && (match s.logic
        case Delivering(v) => PipeReturned(s.pipe, v) || NoPipe(s.pipe, v)
        case Delivered(v) => PipeReturned(s.pipe, v) || NoPipe(s.pipe, v)
        case _ => true)
  }

  predicate PcInv(s: State) {
    match s.pc
    case Begin => s.logic.NotStarted? && s.trace == [] && !s.redirected
    case Waits => s.redirected && s.trace == [] && !s.logic.NotStarted? && !s.logic.Delivered?
    case Leaving(v) => s.trace + Epilogue(v) == FullTrace(s.redirected, v)
    case Closed(v) => s.trace + Epilogue(v)[1..] == FullTrace(s.redirected, v)
    case Uploaded(v) => s.trace + Epilogue(v)[2..] == FullTrace(s.redirected, v)
    case Finished(v) => s.trace == FullTrace(s.redirected, v)
  }

  predicate ExitInv(s: State) {
    !s.pc.Begin? && !s.pc.Waits? ==>
      if s.logic.Delivered? then s.redirected && s.pc.v == s.logic.v else s.pc.v == NeverFinished()
  }

  ghost predicate Inv(n: nat, m: nat, s: State) {
    LogicInv(s) && PcInv(s) && ExitInv(s) && PipelineProofs.Good(n, m, s.pipe) &&
    (s.logic.NotStarted? || s.logic.Prologue? ==> s.pipe == Pipeline.Init(n, m))
  }

  lemma PipeKeepsVerdict(p: Pipeline.State, l: Pipeline.Label)
    requires Pipeline.Enabled(p, l) && !p.main.Wiring?
    ensures !Pipeline.Apply(p, l).main.Wiring?
    ensures forall v :: PipeReturned(p, v) ==> PipeReturned(Pipeline.Apply(p, l), v)
  {
    match l
    case OfStep(k, act) =>
    case OfArt(j, act) =>
    case OfGather(act) =>
    case _ =>
  }

  lemma PipeKeepsInv(n: nat, m: nat, s: State, l: Pipeline.Label)
    requires Inv(n, m, s) && Enabled(s, InPipe(l))
    ensures Inv(n, m, Apply(s, InPipe(l)))
  {
    PipelineProofs.GoodStep(n, m, s.pipe, l);
    if !s.pipe.main.Wiring? {
      PipeKeepsVerdict(s.pipe, l);
    }
  }

  lemma OtherKeepsLogic(s: State, a: Label)
    requires LogicInv(s) && PcInv(s) && Enabled(s, a) && !a.InPipe?
    requires s.logic.NotStarted? || s.logic.Prologue? ==> s.pipe.main.Wiring?
    ensures LogicInv(Apply(s, a)) && Apply(s, a).pipe == s.pipe
  {
  }

  lemma OtherKeepsPc(s: State, a: Label)
    requires PcInv(s) && Enabled(s, a) && !a.InPipe?
    ensures PcInv(Apply(s, a))
  {
  }

  lemma OtherKeepsExit(s: State, a: Label)
    requires PcInv(s) && ExitInv(s) && Enabled(s, a) && !a.InPipe?
    ensures ExitInv(Apply(s, a))
  {
  }

  lemma OtherKeepsInv(s: State, a: Label)
    requires LogicInv(s) && PcInv(s) && ExitInv(s) && Enabled(s, a) && !a.InPipe?
    requires s.logic.NotStarted? || s.logic.Prologue? ==> s.pipe.main.Wiring?
    ensures LogicInv(Apply(s, a)) && PcInv(Apply(s, a)) && ExitInv(Apply(s, a))
    ensures Apply(s, a).pipe == s.pipe
  {
    OtherKeepsLogic(s, a);
    OtherKeepsPc(s, a);
    OtherKeepsExit(s, a);
  }

  lemma StepKeepsInv(n: nat, m: nat, s: State, a: Label)
    requires Inv(n, m, s) && Enabled(s, a)
    ensures Inv(n, m, Apply(s, a))
  {
    if a.InPipe? {
      PipeKeepsInv(n, m, s, a.pipe);
    } else {
      OtherKeepsInv(s, a);
    }
  }

  lemma {:induction false} EveryRunKeepsInv(n: nat, m: nat, s: State, run: seq<Label>, t: State)
    requires Inv(n, m, s) && Reaches(s, run, t)
    ensures Inv(n, m, t)
    decreases |run|
  {
    if run != [] {
      StepKeepsInv(n, m, s, run[0]);
      EveryRunKeepsInv(n, m, Apply(s, run[0]), run[1..], t);
    }
  }

  lemma ReachableInv(n: nat, m: nat, run: seq<Label>, t: State)
    requires Reaches(Init(n, m), run, t)
    ensures Inv(n, m, t)
  {
    PipelineProofs.InitInv(n, m);
    EveryRunKeepsInv(n, m, Init(n, m), run, t);
  }

  // ---------------------------------------------------------------- the theorems

  predicate LogicSucceeded(s: State) {
    s.logic.Delivered? &&
    ((s.pipe.main.FromNext? && PipelineProofs.AllSucceeded(s.pipe)) || s.pipe.main == FromExit(Nil))
  }

  /** A finished run closed the log, attempted its upload and then made its report, and made
      no other report unless the redirect artifact could not be created. It reports
      completion exactly when the task goroutine delivered a result that came from all steps
      and uploads ending with nil, or from the proxy ending without an error. */
  lemma OutcomeIsRight(n: nat, m: nat, run: seq<Label>, t: State)
    requires Reaches(Init(n, m), run, t) && t.pc.Finished?
    ensures t.trace == FullTrace(t.redirected, t.pc.v)
    ensures Reported(Completed) in t.trace <==> LogicSucceeded(t)
    ensures |t.trace| == if t.redirected then 3 else 4
    ensures (exists reason :: Reported(TaskException(reason)) in t.trace) <==>
              !t.redirected || (t.pc.v.Failed? && t.pc.v.error.Exception?)
  {
    ReachableInv(n, m, run, t);
    var last := t.trace[|t.trace| - 1];
    assert last == Reported(ReportOf(t.pc.v));
    assert last in t.trace;
    assert !t.redirected ==> t.trace[0] == Reported(TaskException(INTERNAL)) && t.trace[0] in t.trace;
    if t.pipe.main.FromNext? {
      PipelineProofs.VerdictIsRight(t.pipe);
    }
  }

  // ---------------------------------------- the body inside the whole protocol

  /** What the select loop of `RunTask` receives during a schedule. */
  function Heard(s: State, run: seq<Label>): seq<Arrival>
    decreases |run|
  {
    if run == [] || !Enabled(s, run[0]) then []
    else
      var rest := Heard(Apply(s, run[0]), run[1..]);
      match run[0]
      case Reclaim(ok) => [ReclaimDue(ok)] + rest
      case ReceiveDone => [Arrival.Done(s.logic.v)] + rest
      case _ => rest
  }

  predicate Decided(pc: TaskPc) { !pc.Begin? && !pc.Waits? }

  lemma {:induction false} DecidedStays(s: State, run: seq<Label>, t: State)
    requires Decided(s.pc) && Reaches(s, run, t)
    ensures Decided(t.pc) && t.pc.v == s.pc.v && t.redirected == s.redirected
    ensures Reclaim(false) !in run && (t.logic.Delivered? <==> s.logic.Delivered?)
    decreases |run|
  {
    if run != [] {
      DecidedStays(Apply(s, run[0]), run[1..], t);
    }
  }

  lemma {:induction false} LoopDecides(s: State, run: seq<Label>, t: State)
    requires s.pc.Waits? && !s.logic.Delivered? && Reaches(s, run, t)
    ensures t.redirected == s.redirected && (t.pc.Waits? || Decided(t.pc))
    ensures Decided(t.pc) ==> (Reclaim(false) in run <==> !t.logic.Delivered?)
    ensures ExitOf(Heard(s, run), s.reclaimFired) ==
            if t.pc.Waits? then (false, NeverFinished()) else (true, t.pc.v)
    decreases |run|
  {
    if run != [] {
      var u := Apply(s, run[0]);
      var rest := Heard(u, run[1..]);
      assert run == [run[0]] + run[1..];
      assert forall x: Arrival :: ([x] + rest)[1..] == rest;
      if u.pc.Waits? {
        LoopDecides(u, run[1..], t);
      } else {
        DecidedStays(u, run[1..], t);
      }
    }
  }

  /** In every schedule of the whole protocol `RunTask` does what its body does when fed with
      what it received. */
  lemma ProtocolRunsRunTask(n: nat, m: nat, run: seq<Label>, t: State)
    requires Reaches(Init(n, m), run, t) && t.pc.Finished?
    ensures var (ended, v) := ExitOf(Heard(Init(n, m), run), false);
            && t.trace == FullTrace(t.redirected, if t.redirected then v else NeverFinished())
            && (t.redirected ==> ended && t.pc.v == v)
            && (t.redirected <==> run[0] == Redirect(true))
  {
    OutcomeIsRight(n, m, run, t);
    assert run[0].Redirect?;
    var u := Apply(Init(n, m), run[0]);
    if run[0].ok {
      LoopDecides(u, run[1..], t);
    } else {
      DecidedStays(u, run[1..], t);
    }
  }

  // -------------------------------------------------------------------- progress

  function StageWork(stage: Stage): nat {
    match stage
    case ParsePayload => 4
    case CreateSandbox => 3
    case PullProxy => 2
    case CreateProxy => 1
  }

  function LogicWork(l: LogicPc): nat {
    match l
    case NotStarted => 7
    case Prologue(stage) => 2 + StageWork(stage)
    case Piping => 2
    case Delivering(_) => 1
    case Delivered(_) => 0
  }

  function PcWork(pc: TaskPc): nat {
    match pc
    case Begin => 5
    case Waits => 4
    case Leaving(_) => 3
    case Closed(_) => 2
    case Uploaded(_) => 1
    case Finished(_) => 0
  }

  function Work(s: State): nat {
    PipelineProofs.Work(s.pipe) + LogicWork(s.logic) + PcWork(s.pc) + (if s.reclaimFired then 0 else 1)
  }

  lemma EveryActionDecreases(s: State, a: Label)
    requires PcInv(s) && Enabled(s, a)
    ensures Work(Apply(s, a)) < Work(s)
  {
    match a
    case InPipe(l) => PipelineProofs.EveryActionDecreases(s.pipe, l);
    case _ => assert Apply(s, a).pipe == s.pipe;
  }

  lemma {:induction false} RunsAreShort(n: nat, m: nat, s: State, run: seq<Label>, t: State)
    requires Inv(n, m, s) && Reaches(s, run, t)
    ensures |run| + Work(t) <= Work(s)
    decreases |run|
  {
    if run != [] {
      EveryActionDecreases(s, run[0]);
      StepKeepsInv(n, m, s, run[0]);
      RunsAreShort(n, m, Apply(s, run[0]), run[1..], t);
    }
  }

  /** Before its report a run can always go on, so every task that is claimed gets a report
      if pulls, containers and uploads return. */
  lemma UnreportedActs(n: nat, m: nat, s: State)
    requires Inv(n, m, s) && !s.pc.Finished?
    ensures exists a :: Enabled(s, a)
  {
    match s.pc
    case Begin => assert Enabled(s, Redirect(true));
    case Waits =>
      if s.logic.Delivering? {
        assert Enabled(s, ReceiveDone);
      } else {
        UnresolvedActs(n, m, s);
      }
    case Leaving(_) => assert Enabled(s, CloseLog);
    case Closed(_) => assert Enabled(s, UploadLog);
    case Uploaded(_) => assert Enabled(s, SendReport);
  }

  lemma EveryTaskReports(n: nat, m: nat, run: seq<Label>, t: State)
    requires Reaches(Init(n, m), run, t)
    ensures |run| <= 7 * n + 5 * m + 21
    ensures (forall a :: !Enabled(t, a)) ==> t.pc.Finished?
  {
    ReachableInv(n, m, run, t);
    PipelineProofs.InitInv(n, m);
    RunsAreShort(n, m, Init(n, m), run, t);
    PipelineProofs.WorkBounds(Init(n, m).pipe.steps, Init(n, m).pipe.arts);
    if !t.pc.Finished? {
      UnreportedActs(n, m, t);
    }
  }

  /** A task goroutine that has been started and has no result yet can go on. */
  lemma UnresolvedActs(n: nat, m: nat, s: State)
    requires Inv(n, m, s) && (s.logic.Prologue? || s.logic.Piping?)
    ensures exists a :: Enabled(s, a)
  {
    if s.logic.Prologue? {
      assert Enabled(s, StageEnds(true));
    } else if s.pipe.main.FromNext? || s.pipe.main.FromExit? {
      assert Enabled(s, LogicReturns);
    } else if l :| Pipeline.Enabled(s.pipe, l) {
      assert Enabled(s, InPipe(l));
    } else {
      PipelineProofs.StuckIsQuiet(s.pipe);
      assert false;
    }
  }

  /** The task goroutine is left at its send on the unbuffered `doneCh` for ever exactly when a
      reclaim failed; otherwise its result was received, or it was never started. */
  lemma ResultIsLostExactly(n: nat, m: nat, run: seq<Label>, t: State)
    requires Reaches(Init(n, m), run, t) && forall a :: !Enabled(t, a)
    ensures t.logic.Delivering? <==> Reclaim(false) in run
    ensures t.logic.Delivering? || t.logic.Delivered? || !t.redirected
    ensures t.redirected <==> run != [] && run[0] == Redirect(true)
  {
    EveryTaskReports(n, m, run, t);
    ReachableInv(n, m, run, t);
    assert run[0].Redirect?;
    var u := Apply(Init(n, m), run[0]);
    assert run == [run[0]] + run[1..];
    if run[0].ok {
      LoopDecides(u, run[1..], t);
      if t.logic.Prologue? || t.logic.Piping? {
        UnresolvedActs(n, m, t);
      }
    } else {
      DecidedStays(u, run[1..], t);
    }
  }

  predicate CloseFirst(trace: seq<Act>) {
    forall i :: 0 <= i < |trace| && trace[i] == LogUploaded ==> i > 0 && trace[i - 1] == LogClosed
  }

  lemma FullTraceClosesFirst(redirected: bool, v: Val)
    ensures CloseFirst(FullTrace(redirected, v))
  {
  }

  lemma TraceIsPrefix(s: State)
    requires PcInv(s) && Decided(s.pc)
    ensures s.trace <= FullTrace(s.redirected, s.pc.v)
  {
  }

  /** At every moment of a run the upload of the log was preceded by its close. */
  lemma LogClosedFirst(n: nat, m: nat, run: seq<Label>, t: State)
    requires Reaches(Init(n, m), run, t)
    ensures CloseFirst(t.trace)
  {
    ReachableInv(n, m, run, t);
    if Decided(t.pc) {
      TraceIsPrefix(t);
      FullTraceClosesFirst(t.redirected, t.pc.v);
    }
  }

  // --------------------------------------------- the proxy decides over the steps

  lemma Chain(s: State, a: Label, rest: seq<Label>, t: State)
    requires Enabled(s, a) && Reaches(Apply(s, a), rest, t)
    ensures Reaches(s, [a] + rest, t)
  {
    assert ([a] + rest)[1..] == rest;
  }

  /** A task of one step, whose goroutines exist. */
  function OneStep(): State {
    Init(1, 0).(pc := Waits, logic := Piping, redirected := true)
  }

  /** Its image could not be pulled, and then the proxy ended without an error. */
  function PullFailed(): Pipeline.State {
    Pipeline.State(true, [Step(Pipeline.Ending(Failed(Plain(1))), Fresh())], [], Reading(0), Fresh(),
                   ProxySent(Nil), Fresh(), FromExit(Nil), [])
  }

  lemma OneStepBegins() returns (run: seq<Label>)
    ensures Reaches(Init(1, 0), run, OneStep())
  {
    var s0 := Init(1, 0);
    var s1 := Apply(s0, Redirect(true));
    var s2 := Apply(s1, StageEnds(true));
    var s3 := Apply(s2, StageEnds(true));
    var s4 := Apply(s3, StageEnds(true));
    var run5 := [StageEnds(true)];
    Chain(s4, StageEnds(true), [], OneStep());
    Chain(s3, StageEnds(true), run5, OneStep());
    Chain(s2, StageEnds(true), [StageEnds(true)] + run5, OneStep());
    Chain(s1, StageEnds(true), [StageEnds(true)] + ([StageEnds(true)] + run5), OneStep());
    run := [Redirect(true)] + ([StageEnds(true)] + ([StageEnds(true)] + ([StageEnds(true)] + run5)));
    Chain(s0, Redirect(true), run[1..], OneStep());
  }

  lemma PullFails() returns (run: seq<Label>)
    ensures Reaches(OneStep(), run, OneStep().(pipe := PullFailed()))
  {
    var end := OneStep().(pipe := PullFailed());
    var s0 := OneStep();
    var s1 := Apply(s0, InPipe(CloseStart));
    var s2 := Apply(s1, InPipe(OfStep(0, Pull(Failed(Plain(1))))));
    assert s2.pipe.steps == PullFailed().steps;
    var s3 := Apply(s2, InPipe(ProxyExit(Nil)));
    var s4 := Apply(s3, InPipe(ProxySend));
    Chain(s4, InPipe(TakeExit), [], end);
    Chain(s3, InPipe(ProxySend), [InPipe(TakeExit)], end);
    var run3 := [InPipe(ProxySend)] + [InPipe(TakeExit)];
    Chain(s2, InPipe(ProxyExit(Nil)), run3, end);
    var run2 := [InPipe(ProxyExit(Nil))] + run3;
    Chain(s1, InPipe(OfStep(0, Pull(Failed(Plain(1))))), run2, end);
    var run1 := [InPipe(OfStep(0, Pull(Failed(Plain(1)))))] + run2;
    Chain(s0, InPipe(CloseStart), run1, end);
    run := [InPipe(CloseStart)] + run1;
  }

  lemma {:induction false} Concat(s: State, run: seq<Label>, t: State, more: seq<Label>, u: State)
    requires Reaches(s, run, t) && Reaches(t, more, u)
    ensures Reaches(s, run + more, u)
    decreases |run|
  {
    if run == [] {
      assert run + more == more;
    } else {
      assert (run + more)[1..] == run[1..] + more;
      Concat(Apply(s, run[0]), run[1..], t, more, u);
    }
  }

  /** The end of a run whose pipeline has returned nil. */
  lemma ReportsCompleted(s: State) returns (run: seq<Label>, t: State)
    requires s.pc.Waits? && s.logic == Delivering(Nil) && s.trace == []
    ensures Reaches(s, run, t) && t.pc.Finished? && t.pipe == s.pipe && Reported(Completed) in t.trace
  {
    var s2 := Apply(s, ReceiveDone);
    var s3 := Apply(s2, CloseLog);
    var s4 := Apply(s3, UploadLog);
    t := Apply(s4, SendReport);
    assert t.trace[2] == Reported(Completed);
    Chain(s4, SendReport, [], t);
    Chain(s3, UploadLog, [SendReport], t);
    Chain(s2, CloseLog, [UploadLog, SendReport], t);
    Chain(s, ReceiveDone, [CloseLog, UploadLog, SendReport], t);
    run := [ReceiveDone] + [CloseLog, UploadLog, SendReport];
  }

  /** A task is reported completed although its only step failed: `runTaskLogic` returns the
      error of whichever of the gatherer and the proxy the select receives from. */
  lemma ProxyHidesFailure() returns (run: seq<Label>, t: State)
    ensures Reaches(Init(1, 0), run, t) && t.pc.Finished? && Reported(Completed) in t.trace
    ensures t.pipe == PullFailed()
  {
    var run1 := OneStepBegins();
    var run2 := PullFails();
    var s0 := OneStep().(pipe := PullFailed());
    var s1 := Apply(s0, LogicReturns);
    var run3;
    run3, t := ReportsCompleted(s1);
    Chain(s0, LogicReturns, run3, t);
    Concat(Init(1, 0), run1, OneStep(), run2, s0);
    Concat(Init(1, 0), run1 + run2, s0, [LogicReturns] + run3, t);
    run := run1 + run2 + ([LogicReturns] + run3);
  }
}
