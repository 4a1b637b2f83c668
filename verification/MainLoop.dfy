/** `Worker.Run` itself: the select loop as a loop over what arrives on its channels, with
    the variables of the original updated in place (internal/worker/worker.go:136-225). */
module MainLoop {
  import opened Scheduler

  /** One value received by the select. `idlePassed`: the idle limit is set and has passed. */
  datatype Arrival =
    | CtxDone
    | StopValue(finishTasks: bool)
    | Completed(slot: nat)
    | Closed
    | Response(tasks: seq<Task>, idlePassed: bool)

  /** The main goroutine with what it has done so far: the requests it sent on `workReq` and
      the task goroutines it started, each with its slot. */
  datatype Progress = Progress(at: Control, sent: seq<nat>, launched: seq<(nat, Task)>)

  /** A nil channel is never ready. */
  predicate CanArrive(l: Loop, a: Arrival) {
    match a
    case CtxDone => l.ctxArmed
    case Closed => l.resOpen
    case Response(_, _) => l.resOpen
    case _ => true
  }

  function Arm(n: nat, l: Loop, a: Arrival): Control
    requires CanArrive(l, a)
  {
    match a
    case CtxDone => OnCtxDone(n, l)
    case StopValue(finish) => OnStop(l, finish)
    case Completed(slot) => OnCompleted(n, l, slot)
    case Closed => OnClosed(n, l)
    case Response(tasks, passed) => OnResponse(l, tasks, passed)
  }

  /** The rest of an arm: start the pending tasks, then send the request. */
  function Settle(p: Progress): Progress
    decreases if p.at.pc.Starting? then |p.at.pc.pending| + 2 else if p.at.pc.Sending? then 1 else 0
  {
    var l := p.at.loop;
    match p.at.pc
    case Starting(pending) =>
      var c := StartNext(l, pending);
      Settle(if c.pc.Starting? then
               Progress(c, p.sent, p.launched + [(l.free[|l.free| - 1], pending[0])])
             else p.(at := c))
    case Sending(k) => Progress(At(l, Selecting), p.sent + [k], p.launched)
    case _ => p
  }

  /** The loop over the tasks of a response, without the loop: it pops past the end exactly
      when there are more tasks than free slots, and otherwise gives the tasks the last free
      slots, the last one first, and asks for as many tasks as there are slots left. */
  lemma {:induction false} StartsExactly(l: Loop, tasks: seq<Task>, sent: seq<nat>, launched: seq<(nat, Task)>)
    ensures var q := Settle(Progress(At(l, Starting(tasks)), sent, launched));
            var left := |l.free| - |tasks|;
            && (q.at.pc.Panicked? <==> left < 0)
            && (left >= 0 ==>
                  && q.at.pc.Selecting? && q.at.loop.free == l.free[..left]
                  && q.sent == sent + (if left > 0 then [left] else [])
                  && (q.at.loop.isFull <==> left == 0 || l.isFull)
                  && |q.launched| == |launched| + |tasks| && q.launched[..|launched|] == launched
                  && forall i :: 0 <= i < |tasks| ==>
                       q.launched[|launched| + i] == (l.free[|l.free| - 1 - i], tasks[i]))
    decreases |tasks|
  {
    if tasks != [] && l.free != [] {
      var last := |l.free| - 1;
      var l' := l.(free := l.free[..last], idle := false);
      var more := launched + [(l.free[last], tasks[0])];
      StartsExactly(l', tasks[1..], sent, more);
      var q := Settle(Progress(At(l', Starting(tasks[1..])), sent, more));
      var left := |l.free| - |tasks|;
      if left >= 0 {
        assert q.launched[..|launched|] == q.launched[..|more|][..|launched|];
        forall i | 0 <= i < |tasks|
          ensures q.launched[|launched| + i] == (l.free[|l.free| - 1 - i], tasks[i])
        {
          if i == 0 {
            assert q.launched[|launched|] == q.launched[..|more|][|launched|];
          } else {
            assert q.launched[|more| + (i - 1)] == (l'.free[|l'.free| - 1 - (i - 1)], tasks[1..][i - 1]);
          }
        }
      }
    }
  }

  /** The main goroutine fed with `arrivals`, in order. */
  function Follow(n: nat, p: Progress, arrivals: seq<Arrival>): Progress
    decreases |arrivals|
  {
    if arrivals == [] || !p.at.pc.Selecting? then p
    else if !CanArrive(p.at.loop, arrivals[0]) then Follow(n, p, arrivals[1..])
    else Follow(n, Settle(p.(at := Arm(n, p.at.loop, arrivals[0]))), arrivals[1..])
  }

  /** Before the first select: all slots free, and the first request sent. */
  function Beginning(n: nat): Progress {
    Settle(Progress(Init(n, NoStop).main, [], []))
  }

  /** What makes the loop return for this cause. */
  predicate Explains(a: Arrival, why: Cause) {
    match why
    case ContextDone => a == CtxDone
    case Immediate => a == StopValue(false)
    case Drained => a.Completed?
    case ClaimerGone => a == Closed
    case IdleShutdown => a == Response([], true)
  }

  lemma {:induction false} SettleNeverReturns(p: Progress)
    requires !p.at.pc.Returned?
    ensures !Settle(p).at.pc.Returned?
    decreases if p.at.pc.Starting? then |p.at.pc.pending| + 2 else if p.at.pc.Sending? then 1 else 0
  {
    if p.at.pc.Starting? {
      var l, pending := p.at.loop, p.at.pc.pending;
      var c := StartNext(l, pending);
      SettleNeverReturns(
        if c.pc.Starting? then Progress(c, p.sent, p.launched + [(l.free[|l.free| - 1], pending[0])])
        else p.(at := c));
    }
  }

  /** A run that has returned received what explains it; an idle shutdown, for one, an empty
      response after the limit had passed. */
  lemma {:induction false} ReturnsForAReason(n: nat, p: Progress, arrivals: seq<Arrival>)
    requires p.at.pc.Selecting?
    ensures var q := Follow(n, p, arrivals);
            q.at.pc.Returned? ==> exists i :: 0 <= i < |arrivals| && Explains(arrivals[i], q.at.pc.why)
    decreases |arrivals|
  {
    if arrivals != [] {
      var rest := arrivals[1..];
      assert forall i :: 0 <= i < |rest| ==> rest[i] == arrivals[i + 1];
      if !CanArrive(p.at.loop, arrivals[0]) {
        ReturnsForAReason(n, p, rest);
      } else {
        var armed := p.(at := Arm(n, p.at.loop, arrivals[0]));
        if armed.at.pc.Returned? {
          assert Explains(arrivals[0], armed.at.pc.why);
          assert Follow(n, armed, rest) == armed;
        } else {
          SettleNeverReturns(armed);
          if Settle(armed).at.pc.Selecting? {
            ReturnsForAReason(n, Settle(armed), rest);
          }
        }
      }
    }
  }

  /** What the loop makes of one response, at the select: nothing once `workRes` is nil; the idle
      shutdown if it is empty, the limit has passed and the worker is idle; nothing while it is
      shutting down; and otherwise each task is started on a free slot of its own, and all
      slots that are left are asked for. */
  lemma RespondsExactly(n: nat, l: Loop, sent: seq<nat>, launched: seq<(nat, Task)>, tasks: seq<Task>, passed: bool)
    requires |tasks| <= |l.free|
    ensures var p := Progress(At(l, Selecting), sent, launched);
            var q := Follow(n, p, [Response(tasks, passed)]);
            if !l.resOpen then q == p
            else if passed && tasks == [] && l.idle then q == p.(at := At(l, Returned(IdleShutdown)))
            else if l.shuttingDown then q == p
            else
              var left := |l.free| - |tasks|;
              && q.at.pc.Selecting? && q.at.loop.free == l.free[..left]
              && q.sent == sent + (if left > 0 then [left] else [])
              && |q.launched| == |launched| + |tasks| && q.launched[..|launched|] == launched
              && forall i :: 0 <= i < |tasks| ==>
                   q.launched[|launched| + i] == (l.free[|l.free| - 1 - i], tasks[i])
  {
    var p := Progress(At(l, Selecting), sent, launched);
    var arrivals := [Response(tasks, passed)];
    assert arrivals[1..] == [];
    if l.resOpen {
      assert Follow(n, p, arrivals) == Follow(n, Settle(p.(at := OnResponse(l, tasks, passed))), []);
      StartsExactly(l, tasks, sent, launched);
    }
  }

  /** One round of the loop over the tasks. */
  lemma SettleOne(l: Loop, tasks: seq<Task>, idx: nat, sent: seq<nat>, launched: seq<(nat, Task)>)
    requires idx < |tasks|
    ensures Settle(Progress(At(l, Starting(tasks[idx..])), sent, launched)) ==
            if l.free == [] then Progress(At(l, Panicked), sent, launched)
            else
              var last := |l.free| - 1;
              Settle(Progress(At(l.(free := l.free[..last], idle := false), Starting(tasks[idx + 1..])), sent,
                              launched + [(l.free[last], tasks[idx])]))
  {
    assert tasks[idx..][0] == tasks[idx] && tasks[idx..][1..] == tasks[idx + 1..];
  }

  lemma SettleNone(l: Loop, sent: seq<nat>, launched: seq<(nat, Task)>)
    ensures Settle(Progress(At(l, Starting([])), sent, launched)) ==
            if |l.free| > 0 then Progress(At(l, Selecting), sent + [|l.free|], launched)
            else Progress(At(l.(isFull := true), Selecting), sent, launched)
  {
  }

  class Worker {
    const concurrentTasks: nat
    var freeSlots: seq<nat>
    var isFull: bool
    var idleSince: bool
    var isShuttingDown: bool
    var workRes: bool       // the channel variable is not nil
    var ctxDone: bool       // the channel variable is not nil
    var sent: seq<nat>
    var launched: seq<(nat, Task)>

    function Local(): Loop
      reads this
    {
      Loop(freeSlots, isFull, idleSince, isShuttingDown, workRes, ctxDone)
    }

    function Doing(pc: Pc): Progress
      reads this
    {
      Progress(At(Local(), pc), sent, launched)
    }

    constructor (n: nat)
      ensures concurrentTasks == n
      ensures Doing(Selecting) == Beginning(n)
    {
      concurrentTasks := n;
      freeSlots := Iota(n);
      sent := [n];
      isFull, idleSince, isShuttingDown := false, true, false;
      workRes, ctxDone := true, true;
      launched := [];
    }

    method OnContext() returns (pc: Pc)
      requires ctxDone
      modifies this
      ensures Doing(pc) == Settle(old(Doing(Selecting)).(at := OnCtxDone(concurrentTasks, old(Local()))))
    {
      isShuttingDown := true;
      ctxDone := false;
      if |freeSlots| == concurrentTasks {
        return Returned(ContextDone);
      }
      pc := Selecting;
    }

    method OnCompletion(slot: nat) returns (pc: Pc)
      modifies this
      ensures Doing(pc) ==
              Settle(old(Doing(Selecting)).(at := OnCompleted(concurrentTasks, old(Local()), slot)))
    {
      freeSlots := freeSlots + [slot];
      var isIdle := |freeSlots| == concurrentTasks;
      if !idleSince && isIdle {
        idleSince := true;
      }
      if isShuttingDown && isIdle {
        return Returned(Drained);
      }
      if isFull {
        isFull := false;
        sent := sent + [1];
      }
      pc := Selecting;
    }

    method OnClose() returns (pc: Pc)
      requires workRes
      modifies this
      ensures Doing(pc) == Settle(old(Doing(Selecting)).(at := OnClosed(concurrentTasks, old(Local()))))
    {
      workRes := false;
      isShuttingDown := true;
      if |freeSlots| == concurrentTasks {
        return Returned(ClaimerGone);
      }
      pc := Selecting;
    }

    method OnWork(tasks: seq<Task>, idlePassed: bool) returns (pc: Pc)
      requires workRes
      modifies this
      ensures Doing(pc) == Settle(old(Doing(Selecting)).(at := OnResponse(old(Local()), tasks, idlePassed)))
    {
      if idlePassed && |tasks| == 0 && idleSince {
        return Returned(IdleShutdown);
      }
      if isShuttingDown {
        return Selecting;
      }
      pc := StartTasks(tasks);
    }

    /** The loop over the tasks, and the request for more. */
    method StartTasks(tasks: seq<Task>) returns (pc: Pc)
      modifies this
      ensures Doing(pc) == Settle(old(Doing(Starting(tasks))))
    {
      ghost var whole := Settle(Doing(Starting(tasks)));
      var idx := 0;
      assert tasks[0..] == tasks;
      while idx < |tasks|
        invariant 0 <= idx <= |tasks|
        invariant Settle(Doing(Starting(tasks[idx..]))) == whole
      {
        SettleOne(Local(), tasks, idx, sent, launched);
        if |freeSlots| == 0 {
          return Panicked;
        }
        var slot := freeSlots[|freeSlots| - 1];
        freeSlots := freeSlots[..|freeSlots| - 1];
        idleSince := false;
        launched := launched + [(slot, tasks[idx])];
        idx := idx + 1;
      }
      assert tasks[idx..] == [];
      SettleNone(Local(), sent, launched);
      if |freeSlots| > 0 {
        sent := sent + [|freeSlots|];
      } else {
        isFull := true;
      }
      pc := Selecting;
    }

    method Run(arrivals: seq<Arrival>) returns (pc: Pc)
      modifies this
      ensures Doing(pc) == Follow(concurrentTasks, old(Doing(Selecting)), arrivals)
    {
      var i := 0;
      pc := Selecting;
      while i < |arrivals| && pc.Selecting?
        invariant 0 <= i <= |arrivals|
        invariant Follow(concurrentTasks, Doing(pc), arrivals[i..]) ==
                  Follow(concurrentTasks, old(Doing(Selecting)), arrivals)
      {
        var next := arrivals[i];
        assert arrivals[i..][0] == next && arrivals[i..][1..] == arrivals[i + 1..];
        if CanArrive(Local(), next) {
          match next {
            case CtxDone => pc := OnContext();
            case StopValue(finishTasks) =>
              if !finishTasks {
                pc := Returned(Immediate);
              } else {
                isShuttingDown := true;
              }
            case Completed(slot) => pc := OnCompletion(slot);
            case Closed => pc := OnClose();
            case Response(tasks, idlePassed) => pc := OnWork(tasks, idlePassed);
          }
        }
        i := i + 1;
      }
    }
  }

  // ------------------------------------------- the loop inside the whole protocol

  /** What the main loop receives with one action. */
  function Received(n: nat, s: State, a: Label): seq<Arrival>
    requires Enabled(n, s, a)
  {
    match a
    case Main(TakeCtx) => [CtxDone]
    case Main(TakeStop) => [StopValue(Scheduler.StopValue(s.stop))]
    case Main(TakeCompleted) => [Completed(s.completed[0])]
    case Main(TakeClosed) => [Closed]
    case Main(TakeResponse(e)) => [Response(s.claimer.tasks, e)]
    case _ => []
  }

  /** What it receives during a schedule. */
  function Arrivals(n: nat, s: State, run: seq<Label>): seq<Arrival>
    decreases |run|
  {
    if run == [] || !Enabled(n, s, run[0]) then []
    else Received(n, s, run[0]) + Arrivals(n, Apply(n, s, run[0]), run[1..])
  }

  function TasksOf(launched: seq<(nat, Task)>): seq<Task> {
    if launched == [] then [] else TasksOf(launched[..|launched| - 1]) + [launched[|launched| - 1].1]
  }

  /** The progress of the main goroutine along with one action of the protocol. */
  function Track(n: nat, s: State, p: Progress, a: Label): Progress
    requires Enabled(n, s, a)
  {
    var main := Apply(n, s, a).main;
    match a
    case Main(StartOne) =>
      if main.pc.Starting? then
        var l := s.main.loop;
        Progress(main, p.sent, p.launched + [(l.free[|l.free| - 1], s.main.pc.pending[0])])
      else p.(at := main)
    case Main(Request) => Progress(main, p.sent + [s.main.pc.n], p.launched)
    case _ => p.(at := main)
  }

  predicate Tracks(p: Progress, s: State) {
    p.at == s.main && TasksOf(p.launched) == s.hist.started
  }

  lemma TrackKeeps(n: nat, s: State, p: Progress, a: Label)
    requires Enabled(n, s, a) && Tracks(p, s)
    ensures Tracks(Track(n, s, p, a), Apply(n, s, a))
  {
    var q := Track(n, s, p, a);
    if a == Main(StartOne) && q.at.pc.Starting? {
      assert q.launched[..|q.launched| - 1] == p.launched;
    }
  }

  /** An action that is not a receive leaves the settled progress as it is. */
  lemma TrackSilent(n: nat, s: State, p: Progress, a: Label)
    requires Enabled(n, s, a) && p.at == s.main
    requires a.Main? ==> a.act.StartOne? || a.act.Request?
    ensures Settle(Track(n, s, p, a)) == Settle(p) && Received(n, s, a) == []
  {
    match a
    case Main(_) =>
    case Claimer(_) =>
    case _ =>
  }

  lemma TrackReceive(n: nat, s: State, p: Progress, a: MainAct)
    requires MainEnabled(s, a) && p.at == s.main && !a.StartOne? && !a.Request?
    ensures Settle(Track(n, s, p, Main(a))) == Follow(n, Settle(p), Received(n, s, Main(a)))
  {
    var arrivals := Received(n, s, Main(a));
    assert |arrivals| == 1;
    assert Track(n, s, p, Main(a)) == p.(at := Arm(n, p.at.loop, arrivals[0]));
  }

  lemma TrackStep(n: nat, s: State, p: Progress, a: Label)
    requires Enabled(n, s, a) && Tracks(p, s)
    ensures Tracks(Track(n, s, p, a), Apply(n, s, a))
    ensures Settle(Track(n, s, p, a)) == Follow(n, Settle(p), Received(n, s, a))
  {
    TrackKeeps(n, s, p, a);
    if a.Main? && !a.act.StartOne? && !a.act.Request? {
      TrackReceive(n, s, p, a.act);
    } else {
      TrackSilent(n, s, p, a);
    }
  }

  lemma {:induction false} FollowAppend(n: nat, p: Progress, first: seq<Arrival>, rest: seq<Arrival>)
    ensures Follow(n, p, first + rest) == Follow(n, Follow(n, p, first), rest)
    decreases |first|
  {
    if first == [] {
      assert first + rest == rest;
    } else if p.at.pc.Selecting? {
      assert (first + rest)[1..] == first[1..] + rest;
      var q := if CanArrive(p.at.loop, first[0]) then Settle(p.(at := Arm(n, p.at.loop, first[0]))) else p;
      FollowAppend(n, q, first[1..], rest);
    }
  }

  lemma {:induction false} LoopTracks(n: nat, s: State, p: Progress, run: seq<Label>, t: State)
    returns (q: Progress)
    requires Tracks(p, s) && Reaches(n, s, run, t)
    ensures Tracks(q, t) && Settle(q) == Follow(n, Settle(p), Arrivals(n, s, run))
    decreases |run|
  {
    if run == [] {
      q := p;
    } else {
      var a := run[0];
      var u := Apply(n, s, a);
      TrackStep(n, s, p, a);
      q := LoopTracks(n, u, Track(n, s, p, a), run[1..], t);
      FollowAppend(n, Settle(p), Received(n, s, a), Arrivals(n, u, run[1..]));
    }
  }

  /** In every schedule of the whole protocol the main goroutine does what `Worker.Run` does
      when fed with what it received, and the tasks it launched are those the protocol
      counts as started. */
  lemma ProtocolRunsTheLoop(n: nat, stop: Stop, run: seq<Label>, t: State)
    requires Reaches(n, Init(n, stop), run, t)
    requires !t.main.pc.Starting? && !t.main.pc.Sending?
    ensures var q := Follow(n, Beginning(n), Arrivals(n, Init(n, stop), run));
            q.at == t.main && TasksOf(q.launched) == t.hist.started
  {
    var q := LoopTracks(n, Init(n, stop), Progress(Init(n, stop).main, [], []), run, t);
  }
}
