/** When the report of a task is earned, and when a failure can be hidden or a result lost
    (internal/worker/run.go:62-73, 388-500). */
module TaskOutcome {
  import opened Pipeline
  import PipelineProofs
  import PipelineCalls
  import opened TaskRun

  // ------------------------------------------------------------------- the proxy

  /** The exit channel and the select have what the proxy ended with. */
  predicate ProxyInv(p: Pipeline.State) {
    match p.proxy
    case ProxyRuns => p.exit == Fresh() && !p.main.FromExit?
    case ProxyEnded(_) => p.exit == Fresh() && !p.main.FromExit?
    case ProxySent(v) =>
      !p.exit.closed && (if p.main.FromExit? then p.main.v == v && p.exit.buf == [] else p.exit.buf == [v])
  }

  predicate ProxyFailed(p: Pipeline.State) { !p.proxy.ProxyRuns? && p.proxy.v != Nil }

  predicate ProxyClean(p: Pipeline.State) { !p.proxy.ProxyRuns? && p.proxy.v == Nil }

  /** The steps, the uploads and the gatherer leave the proxy and the select alone. */
  lemma OthersLeaveProxy(p: Pipeline.State, l: Pipeline.Label)
    requires Pipeline.Enabled(p, l) && (l.OfStep? || l.OfArt? || l.OfGather?)
    ensures var q := Pipeline.Apply(p, l); q.proxy == p.proxy && q.exit == p.exit && q.main == p.main
  {
    match l
    case OfStep(k, act) => PipelineProofs.StepIsLocal(p, k, act);
    case OfArt(j, act) =>
    case OfGather(act) =>
  }

  lemma PipeKeepsProxy(p: Pipeline.State, l: Pipeline.Label)
    requires ProxyInv(p) && Pipeline.Enabled(p, l)
    ensures var q := Pipeline.Apply(p, l);
            && ProxyInv(q) && (ProxyFailed(p) ==> ProxyFailed(q)) && (ProxyClean(p) ==> ProxyClean(q))
            && (ProxyClean(q) <==> ProxyClean(p) || l == ProxyExit(Nil))
  {
    if l.OfStep? || l.OfArt? || l.OfGather? {
      OthersLeaveProxy(p, l);
    }
  }

  // ------------------------------------------------------------ failures are kept

  predicate StepFailed(pc: StepPc) {
    (pc.Cleaning? || pc.Ending? || pc.Closing? || pc.Done?) && pc.v != Nil
  }

  predicate ArtFailed(pc: ArtPc) { (pc.Ended? || pc.Sealing? || pc.Final?) && pc.v != Nil }

  /** A step or an upload has failed. */
  ghost predicate Failing(p: Pipeline.State) {
    || (exists k :: 0 <= k < |p.steps| && StepFailed(p.steps[k].pc))
    || (exists j :: 0 <= j < |p.arts| && ArtFailed(p.arts[j].pc))
  }

  lemma StepStaysFailed(p: Pipeline.State, l: Pipeline.Label, k: nat)
    requires Pipeline.Enabled(p, l) && k < |p.steps| && StepFailed(p.steps[k].pc)
    ensures k < |Pipeline.Apply(p, l).steps| && StepFailed(Pipeline.Apply(p, l).steps[k].pc)
  {
    match l
    case OfStep(i, act) =>
    case OfArt(j, act) =>
    case OfGather(act) =>
    case _ =>
  }

  lemma ArtStaysFailed(p: Pipeline.State, l: Pipeline.Label, j: nat)
    requires Pipeline.Enabled(p, l) && j < |p.arts| && ArtFailed(p.arts[j].pc)
    ensures j < |Pipeline.Apply(p, l).arts| && ArtFailed(Pipeline.Apply(p, l).arts[j].pc)
  {
    match l
    case OfStep(i, act) => PipelineProofs.StepIsLocal(p, i, act);
    case OfArt(i, act) =>
    case OfGather(act) =>
    case _ =>
  }

  lemma PipeStaysFailing(p: Pipeline.State, l: Pipeline.Label)
    requires Pipeline.Enabled(p, l) && Failing(p)
    ensures Failing(Pipeline.Apply(p, l))
  {
    if k :| 0 <= k < |p.steps| && StepFailed(p.steps[k].pc) {
      StepStaysFailed(p, l, k);
    } else {
      var j :| 0 <= j < |p.arts| && ArtFailed(p.arts[j].pc);
      ArtStaysFailed(p, l, j);
    }
  }

  lemma FailingIsNoSuccess(p: Pipeline.State)
    requires Failing(p)
    ensures !PipelineProofs.AllSucceeded(p)
  {
  }

  // ---------------------------------------------------------- over whole schedules

  lemma {:induction false} EveryRunKeepsProxy(s: TaskRun.State, run: seq<TaskRun.Label>, t: TaskRun.State)
    requires ProxyInv(s.pipe) && TaskRun.Reaches(s, run, t)
    ensures ProxyInv(t.pipe) && (ProxyFailed(s.pipe) ==> ProxyFailed(t.pipe))
    ensures ProxyClean(t.pipe) ==> ProxyClean(s.pipe) || InPipe(ProxyExit(Nil)) in run
    decreases |run|
  {
    if run != [] {
      assert run == [run[0]] + run[1..];
      var u := TaskRun.Apply(s, run[0]);
      PipeStep(s, run[0]);
      if run[0].InPipe? {
        PipeKeepsProxy(s.pipe, run[0].pipe);
      }
      EveryRunKeepsProxy(u, run[1..], t);
    }
  }

  lemma PipeStep(s: TaskRun.State, a: TaskRun.Label)
    requires TaskRun.Enabled(s, a)
    ensures TaskRun.Apply(s, a).pipe == if a.InPipe? then Pipeline.Apply(s.pipe, a.pipe) else s.pipe
  {
  }

  lemma {:induction false} EveryRunKeepsFailing(s: TaskRun.State, run: seq<TaskRun.Label>, t: TaskRun.State)
    requires Failing(s.pipe) && TaskRun.Reaches(s, run, t)
    ensures Failing(t.pipe)
    decreases |run|
  {
    if run != [] {
      PipeStep(s, run[0]);
      if run[0].InPipe? {
        PipeStaysFailing(s.pipe, run[0].pipe);
      }
      EveryRunKeepsFailing(TaskRun.Apply(s, run[0]), run[1..], t);
    }
  }

  /** What the pipeline did on a schedule of the whole task. */
  function PipeRun(run: seq<TaskRun.Label>): seq<Pipeline.Label> {
    if run == [] then [] else (if run[0].InPipe? then [run[0].pipe] else []) + PipeRun(run[1..])
  }

  lemma {:induction false} PipeRuns(s: TaskRun.State, run: seq<TaskRun.Label>, t: TaskRun.State)
    requires TaskRun.Reaches(s, run, t)
    ensures Pipeline.Reaches(s.pipe, PipeRun(run), t.pipe)
    decreases |run|
  {
    if run != [] {
      PipeStep(s, run[0]);
      PipeRuns(TaskRun.Apply(s, run[0]), run[1..], t);
      if run[0].InPipe? {
        assert PipeRun(run)[1..] == PipeRun(run[1..]);
      } else {
        assert PipeRun(run) == PipeRun(run[1..]);
      }
    }
  }

  /** A finished run reports completion exactly when the task goroutine delivered its result and
      that came from the gatherer, with every call of every step and upload successful, or from
      the proxy, with no error. */
  lemma CompletedExactly(n: nat, m: nat, run: seq<TaskRun.Label>, t: TaskRun.State)
    requires TaskRun.Reaches(TaskRun.Init(n, m), run, t) && t.pc.Finished?
    ensures Reported(Completed) in t.trace <==>
            t.logic.Delivered? &&
            ((t.pipe.main.FromNext? && PipelineCalls.AllEarned(n, m, PipeRun(run))) ||
             (t.pipe.main.FromExit? && InPipe(ProxyExit(Nil)) in run))
  {
    OutcomeIsRight(n, m, run, t);
    ReachableInv(n, m, run, t);
    PipeRuns(TaskRun.Init(n, m), run, t);
    EveryRunKeepsProxy(TaskRun.Init(n, m), run, t);
    if t.pipe.main.FromNext? {
      PipelineCalls.NilIsEarned(n, m, PipeRun(run), t.pipe);
      PipelineProofs.VerdictIsRight(t.pipe);
    }
    if InPipe(ProxyExit(Nil)) in run {
      ProxyEndsOnce(TaskRun.Init(n, m), run, t);
    }
  }

  /** The proxy ends with what it ended with. */
  lemma {:induction false} ProxyEndsOnce(s: TaskRun.State, run: seq<TaskRun.Label>, t: TaskRun.State)
    requires ProxyInv(s.pipe) && TaskRun.Reaches(s, run, t) && InPipe(ProxyExit(Nil)) in run
    ensures ProxyInv(t.pipe) && ProxyClean(t.pipe)
    decreases |run|
  {
    var u := TaskRun.Apply(s, run[0]);
    PipeStep(s, run[0]);
    if run[0].InPipe? {
      PipeKeepsProxy(s.pipe, run[0].pipe);
    }
    assert run == [run[0]] + run[1..];
    if run[0] == InPipe(ProxyExit(Nil)) {
      CleanStays(u, run[1..], t);
    } else {
      ProxyEndsOnce(u, run[1..], t);
    }
  }

  lemma {:induction false} CleanStays(s: TaskRun.State, run: seq<TaskRun.Label>, t: TaskRun.State)
    requires ProxyInv(s.pipe) && ProxyClean(s.pipe) && TaskRun.Reaches(s, run, t)
    ensures ProxyInv(t.pipe) && ProxyClean(t.pipe)
    decreases |run|
  {
    if run != [] {
      PipeStep(s, run[0]);
      if run[0].InPipe? {
        PipeKeepsProxy(s.pipe, run[0].pipe);
      }
      CleanStays(TaskRun.Apply(s, run[0]), run[1..], t);
    }
  }

  /** As long as the proxy does not end without an error, a report of completion is earned: it is
      made exactly when the task goroutine delivered the gatherer's result, and every call of
      every step and upload was successful. */
  lemma CompletionIsEarned(n: nat, m: nat, run: seq<TaskRun.Label>, t: TaskRun.State)
    requires TaskRun.Reaches(TaskRun.Init(n, m), run, t) && t.pc.Finished?
    requires InPipe(ProxyExit(Nil)) !in run
    ensures Reported(Completed) in t.trace <==>
            t.logic.Delivered? && t.pipe.main.FromNext? && PipelineCalls.AllEarned(n, m, PipeRun(run))
  {
    CompletedExactly(n, m, run, t);
  }

  // ------------------------------------------------------------- what is reported

  /** How the calls before the pipeline ended, in order. */
  function Stages(run: seq<TaskRun.Label>): seq<bool> {
    if run == [] then []
    else
      var a := run[|run| - 1];
      Stages(run[..|run| - 1]) + if a.StageEnds? then [a.ok] else []
  }

  /** The result that the task goroutine has after these. */
  predicate ResultStory(v: Val, stages: seq<bool>, p: Pipeline.State) {
    (stages == [false] && v == Failed(Exception("malformed-payload")))
    || (stages in {[true, false], [true, true, false], [true, true, true, false]} &&
        v == Failed(Exception("internal-error")))
    || (stages == [true, true, true, true] && (p.main.FromNext? || p.main.FromExit?) && v == p.main.v)
  }

  predicate LogicStory(s: TaskRun.State, stages: seq<bool>) {
    match s.logic
    case NotStarted => stages == []
    case Prologue(ParsePayload) => stages == []
    case Prologue(CreateSandbox) => stages == [true]
    case Prologue(PullProxy) => stages == [true, true]
    case Prologue(CreateProxy) => stages == [true, true, true]
    case Piping => stages == [true, true, true, true]
    case Delivering(v) => ResultStory(v, stages, s.pipe)
    case Delivered(v) => ResultStory(v, stages, s.pipe)
  }

  lemma StagesNext(run: seq<TaskRun.Label>, a: TaskRun.Label)
    ensures Stages(run + [a]) == Stages(run) + if a.StageEnds? then [a.ok] else []
  {
    assert (run + [a])[..|run + [a]| - 1] == run;
  }

  lemma StageTold(s: TaskRun.State, ok: bool, stages: seq<bool>)
    requires TaskRun.Enabled(s, StageEnds(ok)) && LogicStory(s, stages)
    ensures LogicStory(TaskRun.Apply(s, StageEnds(ok)), stages + [ok])
  {
    match s.logic.stage
    case ParsePayload => assert stages + [ok] == [ok];
    case CreateSandbox => assert stages + [ok] == [true, ok];
    case PullProxy => assert stages + [ok] == [true, true, ok];
    case CreateProxy => assert stages + [ok] == [true, true, true, ok];
  }

  lemma StoryGoesOn(s: TaskRun.State, a: TaskRun.Label, stages: seq<bool>)
    requires TaskRun.Enabled(s, a) && LogicStory(s, stages) && !a.StageEnds?
    requires s.pc.Begin? ==> s.logic.NotStarted?
    ensures LogicStory(TaskRun.Apply(s, a), stages)
  {
    if a.InPipe? && !s.pipe.main.Wiring? {
      PipeKeepsVerdict(s.pipe, a.pipe);
    }
  }

  lemma Later(past: seq<TaskRun.Label>, run: seq<TaskRun.Label>)
    requires run != []
    ensures past + [run[0]] + run[1..] == past + run
  {
  }

  lemma StepIsTold(s: TaskRun.State, a: TaskRun.Label, past: seq<TaskRun.Label>)
    requires TaskRun.Enabled(s, a) && LogicStory(s, Stages(past)) && (s.pc.Begin? ==> s.logic.NotStarted?)
    ensures LogicStory(TaskRun.Apply(s, a), Stages(past + [a]))
  {
    StagesNext(past, a);
    if a.StageEnds? {
      StageTold(s, a.ok, Stages(past));
    } else {
      StoryGoesOn(s, a, Stages(past));
      assert Stages(past) + [] == Stages(past);
    }
  }

  lemma {:induction false} EveryRunIsTold(n: nat, m: nat, past: seq<TaskRun.Label>, s: TaskRun.State,
                                          run: seq<TaskRun.Label>, t: TaskRun.State)
    requires TaskRun.Inv(n, m, s) && LogicStory(s, Stages(past)) && TaskRun.Reaches(s, run, t)
    ensures LogicStory(t, Stages(past + run))
    decreases |run|
  {
    if run == [] {
      assert past + run == past;
    } else {
      var a := run[0];
      StepIsTold(s, a, past);
      TaskRun.StepKeepsInv(n, m, s, a);
      EveryRunIsTold(n, m, past + [a], TaskRun.Apply(s, a), run[1..], t);
      Later(past, run);
    }
  }

  /** What is reported at the end of a task: the exception of a malformed payload if it did not
      parse, an internal error if another call before the pipeline failed, if the redirect
      failed, or if the claim was lost; otherwise what the pipeline returned. */
  predicate Final(report: Report, redirected: bool, lost: bool, stages: seq<bool>, p: Pipeline.State) {
    if !redirected || lost then report == TaskException("internal-error")
    else if stages == [false] then report == TaskException("malformed-payload")
    else if stages != [true, true, true, true] then report == TaskException("internal-error")
    else
      (p.main.FromNext? || p.main.FromExit?) &&
      match p.main.v
      case Nil => report == Completed
      case Failed(Exception(kind)) => report == TaskException(kind)
      case Failed(Plain(_)) => report == TaskFailed
  }

  /** Of a task that is decided: its claim is lost, or its result has been received. */
  lemma FinalReport(s: TaskRun.State, lost: bool, stages: seq<bool>)
    requires LogicStory(s, stages) && ExitInv(s) && Decided(s.pc)
    requires s.redirected ==> (lost <==> !s.logic.Delivered?)
    requires s.redirected <==> !s.logic.NotStarted?
    ensures Final(ReportOf(s.pc.v), s.redirected, lost, stages, s.pipe)
  {
  }

  lemma LostExactly(n: nat, m: nat, run: seq<TaskRun.Label>, t: TaskRun.State)
    requires TaskRun.Reaches(TaskRun.Init(n, m), run, t) && t.pc.Finished?
    ensures t.redirected <==> run[0] == Redirect(true)
    ensures t.redirected ==> (Reclaim(false) in run <==> !t.logic.Delivered?)
  {
    var s := TaskRun.Init(n, m);
    assert run == [run[0]] + run[1..];
    assert run[0].Redirect?;
    if run[0].ok {
      LoopDecides(TaskRun.Apply(s, run[0]), run[1..], t);
    } else {
      DecidedStays(TaskRun.Apply(s, run[0]), run[1..], t);
    }
  }

  lemma WholeTrace(redirected: bool, v: Val)
    ensures FullTrace(redirected, v) == (if redirected then [] else [Reported(TaskException("internal-error"))]) +
                                        [LogClosed, LogUploaded, Reported(ReportOf(v))]
  {
  }

  lemma ReportExactly(n: nat, m: nat, run: seq<TaskRun.Label>, t: TaskRun.State)
    requires TaskRun.Reaches(TaskRun.Init(n, m), run, t) && t.pc.Finished?
    ensures t.redirected <==> run[0] == Redirect(true)
    ensures exists report ::
              Final(report, t.redirected, Reclaim(false) in run, Stages(run), t.pipe) &&
              t.trace == (if t.redirected then [] else [Reported(TaskException("internal-error"))]) +
                         [LogClosed, LogUploaded, Reported(report)]
  {
    PipelineProofs.InitInv(n, m);
    EveryRunIsTold(n, m, [], TaskRun.Init(n, m), run, t);
    assert [] + run == run;
    OutcomeIsRight(n, m, run, t);
    ReachableInv(n, m, run, t);
    LostExactly(n, m, run, t);
    FinalReport(t, Reclaim(false) in run, Stages(run));
    WholeTrace(t.redirected, t.pc.v);
  }

  ghost predicate MayComplete(s: TaskRun.State) {
    exists run, t :: TaskRun.Reaches(s, run, t) && t.pc.Finished? && Reported(Completed) in t.trace
  }

  lemma Do(s: TaskRun.State, run: seq<TaskRun.Label>, t: TaskRun.State, a: TaskRun.Label)
    returns (more: seq<TaskRun.Label>, u: TaskRun.State)
    requires TaskRun.Reaches(s, run, t) && TaskRun.Enabled(t, a)
    ensures TaskRun.Reaches(s, more, u) && u == TaskRun.Apply(t, a) && more == run + [a]
  {
    more, u := run + [a], TaskRun.Apply(t, a);
    TaskRun.Concat(s, run, t, [a], u);
  }

  /** The select can still receive that the proxy has ended without an error. */
  lemma ProxyEnds(s: TaskRun.State) returns (run: seq<TaskRun.Label>, t: TaskRun.State)
    requires ProxyInv(s.pipe) && !ProxyFailed(s.pipe) && s.logic.Piping?
    requires s.pipe.main.Wiring? || s.pipe.main.Selecting?
    ensures TaskRun.Reaches(s, run, t) && t.pc == s.pc && t.trace == s.trace
    ensures t.logic == s.logic && t.pipe.main == FromExit(Nil)
  {
    run, t := [], s;
    if t.pipe.main.Wiring? {
      run, t := Do(s, run, t, InPipe(CloseStart));
    }
    if t.pipe.proxy.ProxyRuns? {
      run, t := Do(s, run, t, InPipe(ProxyExit(Nil)));
    }
    if t.pipe.proxy.ProxyEnded? {
      run, t := Do(s, run, t, InPipe(ProxySend));
    }
    run, t := Do(s, run, t, InPipe(TakeExit));
  }

  lemma FailureCanBeHidden(s: TaskRun.State) returns (run: seq<TaskRun.Label>, t: TaskRun.State)
    requires ProxyInv(s.pipe) && !ProxyFailed(s.pipe) && s.logic.Piping?
    requires s.pipe.main.Wiring? || s.pipe.main.Selecting?
    requires s.pc.Waits? && s.trace == []
    ensures TaskRun.Reaches(s, run, t) && t.pc.Finished? && Reported(Completed) in t.trace
  {
    var first, u := ProxyEnds(s);
    first, u := Do(s, first, u, LogicReturns);
    var last;
    last, t := ReportsCompleted(u);
    TaskRun.Concat(s, first, u, last, t);
    run := first + last;
  }

  /** When a step or an upload has failed and the select has not decided yet, completion can still
      be reported exactly as long as the proxy has not ended with an error and the claim has not
      been lost. */
  lemma FailureIsHiddenExactly(n: nat, m: nat, run: seq<TaskRun.Label>, t: TaskRun.State)
    requires TaskRun.Reaches(TaskRun.Init(n, m), run, t) && Failing(t.pipe)
    requires t.logic.Piping? && (t.pipe.main.Wiring? || t.pipe.main.Selecting?)
    ensures MayComplete(t) <==> !ProxyFailed(t.pipe) && t.pc.Waits?
  {
    ReachableInv(n, m, run, t);
    EveryRunKeepsProxy(TaskRun.Init(n, m), run, t);
    if !ProxyFailed(t.pipe) && t.pc.Waits? {
      var more, u := FailureCanBeHidden(t);
      assert MayComplete(t);
    } else if MayComplete(t) {
      var more, u :| TaskRun.Reaches(t, more, u) && u.pc.Finished? && Reported(Completed) in u.trace;
      NoCompletion(n, m, run, t, more, u);
      assert false;
    }
  }

  lemma NoCompletion(n: nat, m: nat, run: seq<TaskRun.Label>, t: TaskRun.State,
                     more: seq<TaskRun.Label>, u: TaskRun.State)
    requires TaskRun.Reaches(TaskRun.Init(n, m), run, t) && Failing(t.pipe) && t.logic.Piping?
    requires TaskRun.Reaches(t, more, u) && u.pc.Finished?
    requires ProxyFailed(t.pipe) || !t.pc.Waits?
    ensures Reported(Completed) !in u.trace
  {
    ReachableInv(n, m, run, t);
    TaskRun.Concat(TaskRun.Init(n, m), run, t, more, u);
    OutcomeIsRight(n, m, run + more, u);
    if !t.pc.Waits? {
      DecidedStays(t, more, u);
    } else {
      EveryRunKeepsProxy(TaskRun.Init(n, m), run, t);
      EveryRunKeepsProxy(t, more, u);
      EveryRunKeepsFailing(t, more, u);
      FailingIsNoSuccess(u.pipe);
    }
  }

  // ------------------------------------------------------------ a result is lost

  lemma {:induction false} RunsOut(n: nat, m: nat, s: TaskRun.State)
    returns (run: seq<TaskRun.Label>, t: TaskRun.State)
    requires TaskRun.Inv(n, m, s)
    ensures TaskRun.Reaches(s, run, t) && forall a :: !TaskRun.Enabled(t, a)
    decreases TaskRun.Work(s)
  {
    run, t := [], s;
    if a :| TaskRun.Enabled(s, a) {
      TaskRun.EveryActionDecreases(s, a);
      TaskRun.StepKeepsInv(n, m, s, a);
      var rest;
      rest, t := RunsOut(n, m, TaskRun.Apply(s, a));
      TaskRun.Chain(s, a, rest, t);
      run := [a] + rest;
    }
  }

  /** From every moment at which the reclaim is still to come, some schedule ends with the report
      made and the task goroutine at its send for ever. */
  lemma ResultCanBeLost(n: nat, m: nat, run: seq<TaskRun.Label>, s: TaskRun.State)
    returns (more: seq<TaskRun.Label>, t: TaskRun.State)
    requires TaskRun.Reaches(TaskRun.Init(n, m), run, s) && s.pc.Waits? && !s.reclaimFired
    ensures TaskRun.Reaches(s, more, t) && Reclaim(false) in more && forall a :: !TaskRun.Enabled(t, a)
    ensures t.pc.Finished? && t.logic.Delivering?
  {
    var u := TaskRun.Apply(s, Reclaim(false));
    ReachableInv(n, m, run, s);
    TaskRun.StepKeepsInv(n, m, s, Reclaim(false));
    var rest;
    rest, t := RunsOut(n, m, u);
    TaskRun.Chain(s, Reclaim(false), rest, t);
    more := [Reclaim(false)] + rest;
    TaskRun.Concat(TaskRun.Init(n, m), run, s, more, t);
    EveryTaskReports(n, m, run + more, t);
    ResultIsLostExactly(n, m, run + more, t);
  }

  /** In a run that cannot go on nothing else is left behind: if the pipeline was begun, each of
      its goroutines has finished, whichever of the gatherer and the proxy the select took, and
      although the select no longer waits for the others. */
  lemma NothingElseIsLeft(n: nat, m: nat, run: seq<TaskRun.Label>, t: TaskRun.State)
    requires TaskRun.Reaches(TaskRun.Init(n, m), run, t) && forall a :: !TaskRun.Enabled(t, a)
    requires !t.pipe.main.Wiring?
    ensures PipelineProofs.Quiet(t.pipe)
  {
    ReachableInv(n, m, run, t);
    EveryTaskReports(n, m, run, t);
    ResultIsLostExactly(n, m, run, t);
    forall l ensures !Pipeline.Enabled(t.pipe, l) {
      assert !TaskRun.Enabled(t, InPipe(l));
    }
    PipelineProofs.StuckIsQuiet(t.pipe);
  }

  /** So it happens, whatever the task. */
  lemma ResultIsLost(n: nat, m: nat) returns (run: seq<TaskRun.Label>, t: TaskRun.State)
    ensures TaskRun.Reaches(TaskRun.Init(n, m), run, t) && Reclaim(false) in run
    ensures t.pc.Finished? && t.logic.Delivering? && forall a :: !TaskRun.Enabled(t, a)
  {
    var s := TaskRun.Init(n, m);
    var first, u := Do(s, [], s, Redirect(true));
    var more;
    more, t := ResultCanBeLost(n, m, first, u);
    TaskRun.Concat(s, first, u, more, t);
    run := first + more;
  }
}
