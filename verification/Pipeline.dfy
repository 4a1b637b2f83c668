/** The goroutines of one task: a chain of steps, the artifact uploads that all wait for the
    last step, the gatherer, the proxy watcher and the select that waits for the first of
    them (internal/worker/run.go:101-400). They are linked by channels of capacity one. */
module Pipeline {

  datatype Error = Plain(code: int) | Exception(kind: string)

  /** A Go `error` value. */
  datatype Val = Nil | Failed(error: Error)

  datatype Chan = Chan(buf: seq<Val>, closed: bool)

  predicate CanReceive(c: Chan) { c.buf != [] || c.closed }

  /** A closed and empty channel yields nil. */
  function Received(c: Chan): Val
    requires CanReceive(c)
  {
    if c.buf != [] then c.buf[0] else Nil
  }

  function AfterReceive(c: Chan): Chan
    requires CanReceive(c)
  {
    if c.buf != [] then c.(buf := c.buf[1..]) else c
  }

  predicate CanSend(c: Chan) { |c.buf| < 1 && !c.closed }

  /** A step goroutine: `Inside` while its container exists and runs, `Cleaning` when the run
      has returned, `Ending` at the deferred send and `Closing` at the deferred close. */
  datatype StepPc =
    | Pulling | Waiting | Preparing | Inside
    | Cleaning(v: Val) | Ending(v: Val) | Closing(v: Val) | Done(v: Val)

  datatype Step = Step(pc: StepPc, ch: Chan)

  /** What an upload received from the last step. */
  datatype Got = NotYet | Got(v: Val)

  datatype ArtPc = Blocked | Uploading | Ended(v: Val) | Sealing(v: Val) | Final(v: Val)

  datatype Art = Art(pc: ArtPc, got: Got, ch: Chan)

  datatype Gather = Reading(i: nat) | Reporting(v: Val) | Shutting(v: Val) | Gathered(v: Val)

  datatype Proxy = ProxyRuns | ProxyEnded(v: Val) | ProxySent(v: Val)

  datatype MainPc = Wiring | Selecting | FromNext(v: Val) | FromExit(v: Val)

  datatype Event = Created(step: nat) | Removed(step: nat)

  datatype State = State(
    startClosed: bool,
    steps: seq<Step>,
    arts: seq<Art>,
    gather: Gather, next: Chan,
    proxy: Proxy, exit: Chan,
    main: MainPc,
    log: seq<Event>)       // history: container creations and calls to Remove

  datatype StepAct =
    | Pull(v: Val) | Receive | EnvFails(error: Error) | Create(v: Val)
    | Run(exitCode: int, v: Val) | Remove | Send | Close

  datatype ArtAct = Take | Upload(v: Val) | Put | Seal

  datatype GatherAct = ReadLeaf | Report | Finish

  datatype Label =
    | OfStep(k: nat, step: StepAct)
    | OfArt(j: nat, art: ArtAct)
    | OfGather(gather: GatherAct)
    | ProxyExit(v: Val) | ProxySend
    | CloseStart | TakeNext | TakeExit

  // --------------------------------------------------------------- the topology

  /** A channel somebody waits on. */
  datatype Source = Start | StepOut(k: nat) | ArtOut(j: nat)

  function StepDep(k: nat): Source { if k == 0 then Start else StepOut(k - 1) }

  function ArtDep(n: nat): Source { StepDep(n) }

  function LeafCount(m: nat): nat { if m == 0 then 1 else m }

  function Leaf(n: nat, m: nat, i: nat): Source { if m == 0 then StepDep(n) else ArtOut(i) }

  /** The loops of runTaskLogic that start the goroutines, rebuilding `leaves` as they go. */
  method Wire(n: nat, m: nat)
    returns (stepDeps: seq<seq<Source>>, artDeps: seq<seq<Source>>, leaves: seq<Source>)
    ensures stepDeps == seq(n, k requires 0 <= k < n => [StepDep(k)])
    ensures artDeps == seq(m, j requires 0 <= j < m => [ArtDep(n)])
    ensures leaves == seq(LeafCount(m), i requires 0 <= i < LeafCount(m) => Leaf(n, m, i))
  {
    leaves, stepDeps, artDeps := [Start], [], [];
    for idx := 0 to n
      invariant stepDeps == seq(idx, k requires 0 <= k < idx => [StepDep(k)])
      invariant leaves == [StepDep(idx)]
    {
      stepDeps := stepDeps + [leaves];
      leaves := [StepOut(idx)];
    }
    if m > 0 {
      var artifactDependencies := leaves;
      assert artifactDependencies == [ArtDep(n)];
      leaves := [];
      for idx := 0 to m
        invariant artDeps == seq(idx, j requires 0 <= j < idx => [ArtDep(n)])
        invariant leaves == seq(idx, i requires 0 <= i < idx => ArtOut(i))
      {
        artDeps := artDeps + [artifactDependencies];
        leaves := leaves + [ArtOut(idx)];
      }
    }
  }

  predicate ValidSource(s: State, c: Source) {
    match c
    case Start => true
    case StepOut(k) => k < |s.steps|
    case ArtOut(j) => j < |s.arts|
  }

  function Look(s: State, c: Source): Chan
    requires ValidSource(s, c)
  {
    match c
    case Start => Chan([], s.startClosed)
    case StepOut(k) => s.steps[k].ch
    case ArtOut(j) => s.arts[j].ch
  }

  function Consume(s: State, c: Source): State
    requires ValidSource(s, c) && CanReceive(Look(s, c))
  {
    match c
    case Start => s
    case StepOut(k) => s.(steps := s.steps[k := s.steps[k].(ch := AfterReceive(s.steps[k].ch))])
    case ArtOut(j) => s.(arts := s.arts[j := s.arts[j].(ch := AfterReceive(s.arts[j].ch))])
  }

  // ------------------------------------------------------ the transition system

  function Fresh(): Chan { Chan([], false) }

  function Init(n: nat, m: nat): State {
    State(false,
          seq(n, _ => Step(Pulling, Fresh())),
          seq(m, _ => Art(Blocked, NotYet, Fresh())),
          Reading(0), Fresh(), ProxyRuns, Fresh(), Wiring, [])
  }

  predicate StepEnabled(s: State, k: nat, a: StepAct)
    requires k < |s.steps|
  {
    var pc := s.steps[k].pc;
    match a
    case Pull(_) => pc.Pulling?
    case Receive => pc.Waiting? && CanReceive(Look(s, StepDep(k)))
    case EnvFails(_) => pc.Preparing?
    case Create(_) => pc.Preparing?
    case Run(_, _) => pc.Inside?
    case Remove => pc.Cleaning?
    case Send => pc.Ending? && CanSend(s.steps[k].ch)
    case Close => pc.Closing?
  }

  predicate ArtEnabled(s: State, j: nat, a: ArtAct)
    requires j < |s.arts|
  {
    var pc := s.arts[j].pc;
    match a
    case Take => pc.Blocked? && CanReceive(Look(s, ArtDep(|s.steps|)))
    case Upload(_) => pc.Uploading?
    case Put => pc.Ended? && CanSend(s.arts[j].ch)
    case Seal => pc.Sealing?
  }

  predicate GatherEnabled(s: State, a: GatherAct) {
    match a
    case ReadLeaf =>
      s.gather.Reading? && s.gather.i < LeafCount(|s.arts|) &&
      CanReceive(Look(s, Leaf(|s.steps|, |s.arts|, s.gather.i)))
    case Report => s.gather.Reporting? && CanSend(s.next)
    case Finish =>
      s.gather.Shutting? || (s.gather.Reading? && s.gather.i >= LeafCount(|s.arts|))
  }

  predicate Enabled(s: State, a: Label) {
    match a
    case OfStep(k, act) => k < |s.steps| && StepEnabled(s, k, act)
    case OfArt(j, act) => j < |s.arts| && ArtEnabled(s, j, act)
    case OfGather(act) => GatherEnabled(s, act)
    case ProxyExit(_) => s.proxy.ProxyRuns?
    case ProxySend => s.proxy.ProxyEnded? && CanSend(s.exit)
    case CloseStart => s.main.Wiring?
    case TakeNext => s.main.Selecting? && CanReceive(s.next)
    case TakeExit => s.main.Selecting? && CanReceive(s.exit)
  }

  function SetStep(s: State, k: nat, pc: StepPc): State
    requires k < |s.steps|
  {
    s.(steps := s.steps[k := s.steps[k].(pc := pc)])
  }

  function StepMove(s: State, k: nat, a: StepAct): State
    requires k < |s.steps| && StepEnabled(s, k, a)
  {
    var me := s.steps[k];
    match a
    case Pull(v) => SetStep(s, k, if v == Nil then Waiting else Ending(v))
    case Receive =>
      var v := Received(Look(s, StepDep(k)));
      SetStep(Consume(s, StepDep(k)), k, if v == Nil then Preparing else Ending(v))
    case EnvFails(e) => SetStep(s, k, Ending(Failed(e)))
    case Create(v) =>
      if v != Nil then SetStep(s, k, Ending(v))
      else SetStep(s, k, Inside).(log := s.log + [Created(k)])
    case Run(exitCode, v) =>
      SetStep(s, k, Cleaning(if exitCode != 0 then Failed(Plain(exitCode)) else v))
    case Remove => SetStep(s, k, Ending(me.pc.v)).(log := s.log + [Removed(k)])
    case Send => s.(steps := s.steps[k := Step(Closing(me.pc.v), Chan([me.pc.v], false))])
    case Close => s.(steps := s.steps[k := Step(Done(me.pc.v), me.ch.(closed := true))])
  }

  function ArtMove(s: State, j: nat, a: ArtAct): State
    requires j < |s.arts| && ArtEnabled(s, j, a)
  {
    var me := s.arts[j];
    match a
    case Take =>
      var v := Received(Look(s, ArtDep(|s.steps|)));
      Consume(s, ArtDep(|s.steps|)).(
        arts := s.arts[j := me.(pc := if v == Nil then Uploading else Ended(v), got := Got(v))])
    case Upload(v) => s.(arts := s.arts[j := me.(pc := Ended(v))])
    case Put => s.(arts := s.arts[j := me.(pc := Sealing(me.pc.v), ch := Chan([me.pc.v], false))])
    case Seal => s.(arts := s.arts[j := me.(pc := Final(me.pc.v), ch := me.ch.(closed := true))])
  }

  function GatherMove(s: State, a: GatherAct): State
    requires GatherEnabled(s, a)
  {
    match a
    case ReadLeaf =>
      var leaf := Leaf(|s.steps|, |s.arts|, s.gather.i);
      var v := Received(Look(s, leaf));
      Consume(s, leaf).(gather := if v == Nil then Reading(s.gather.i + 1) else Reporting(v))
    case Report => s.(next := Chan([s.gather.v], false), gather := Shutting(s.gather.v))
    case Finish =>
      s.(next := s.next.(closed := true),
         gather := Gathered(if s.gather.Shutting? then s.gather.v else Nil))
  }

  function Apply(s: State, a: Label): State
    requires Enabled(s, a)
  {
    match a
    case OfStep(k, act) => StepMove(s, k, act)
    case OfArt(j, act) => ArtMove(s, j, act)
    case OfGather(act) => GatherMove(s, act)
    case ProxyExit(v) => s.(proxy := ProxyEnded(v))
    case ProxySend => s.(proxy := ProxySent(s.proxy.v), exit := Chan([s.proxy.v], false))
    case CloseStart => s.(startClosed := true, main := Selecting)
    case TakeNext => s.(main := FromNext(Received(s.next)), next := AfterReceive(s.next))
    case TakeExit => s.(main := FromExit(Received(s.exit)), exit := AfterReceive(s.exit))
  }

  predicate Reaches(s: State, run: seq<Label>, t: State)
    decreases |run|
  {
    if run == [] then s == t
    else Enabled(s, run[0]) && Reaches(Apply(s, run[0]), run[1..], t)
  }
}
