/** Safety and draining of the slot scheduler, over every schedule of its goroutines. */
module SchedulerProofs {
  import opened Scheduler

  // ---------------------------------------------------------------- the slots

  /** One of each slot number below `n`. */
  ghost function Slots(n: nat): (m: multiset<nat>)
    ensures |m| == n
    ensures forall i: nat :: m[i] == if i < n then 1 else 0
  {
    if n == 0 then multiset{} else Slots(n - 1) + multiset{n - 1}
  }

  lemma IotaGrows(n: nat)
    ensures Iota(n + 1) == Iota(n) + [n]
  {
  }

  lemma {:induction false} IotaIsSlots(n: nat)
    ensures multiset(Iota(n)) == Slots(n)
  {
    if n > 0 {
      IotaIsSlots(n - 1);
      IotaGrows(n - 1);
    }
  }

  lemma FirstOut(q: seq<nat>)
    requires q != []
    ensures multiset(q) == multiset{q[0]} + multiset(q[1..])
  {
    assert q == [q[0]] + q[1..];
  }

  lemma LastOut(q: seq<nat>)
    requires q != []
    ensures multiset(q) == multiset(q[..|q| - 1]) + multiset{q[|q| - 1]}
  {
    assert q == q[..|q| - 1] + [q[|q| - 1]];
  }

  // ------------------------------------------------------------ the invariant

  /** Every slot is free, held by a running task, or in `completedTasks`; exactly one of these. */
  ghost predicate Conserved(n: nat, s: State) {
    multiset(s.main.loop.free) + s.running + multiset(s.completed) == Slots(n)
  }

  /** The claimer owns the token: it is working on a request or delivering its response. */
  predicate InFlight(c: ClaimPc) { c.Working? || c.Delivering? }

  /** The claimer is alive and waits for a request, or will after one more action of its own. */
  predicate Ready(c: ClaimPc) { c.Parked? || c.Returning? }

  /** One token: held by the main loop (starting, sending, or full), in flight, given up
      while shutting down, or lost with the claimer. */
  predicate TokenAt(main: Control, c: ClaimPc) {
    var l := main.loop;
    && (main.pc.Starting? ==> Ready(c) && !l.isFull && !l.shuttingDown)
    && (main.pc.Sending? ==> Ready(c) && !l.isFull && main.pc.n == |l.free|)
    && (l.isFull ==> l.free == [] || main.pc.Returned?)
    && (l.isFull && main.pc.Selecting? ==> Ready(c))
    && (InFlight(c) ==> !l.isFull && c.n <= |l.free|)
    && (c.Delivering? ==> |c.tasks| <= c.n)
    && (main.pc.Starting? ==> |main.pc.pending| <= |l.free|)
    && (main.pc.Selecting? && !l.shuttingDown && !l.isFull ==>
          InFlight(c) || (c.Dead? && l.resOpen))
    && (!l.resOpen ==> c.Dead? && l.shuttingDown)
  }

  predicate Token(s: State) { TokenAt(s.main, s.claimer) }

  predicate Accounted(s: State) {
    && s.hist.accepted == s.hist.started + (if s.main.pc.Starting? then s.main.pc.pending else [])
    && (!s.main.loop.shuttingDown ==> s.hist.dropped == [])
  }

  predicate FlagsAt(n: nat, main: Control, c: ClaimPc, finishSeen: bool) {
    var l := main.loop;
    && (l.idle <==> |l.free| == n)
    && (!l.ctxArmed ==> l.shuttingDown)
    && ((main.pc.Selecting? || main.pc.Sending?) && l.shuttingDown && |l.free| == n ==> finishSeen)
    && (main.pc.Returned? && main.pc.why != Immediate ==> |l.free| == n)
    && (main.pc == Returned(IdleShutdown) ==> !InFlight(c))
    && !main.pc.Panicked?
  }

  predicate Flags(n: nat, s: State) {
    FlagsAt(n, s.main, s.claimer, s.hist.finishSeen) && (s.main.pc.Returned? ==> s.ctxDone && s.safeDone)
  }

  ghost predicate Inv(n: nat, s: State) {
    Conserved(n, s) && Token(s) && Accounted(s) && Flags(n, s)
  }

  lemma InitInv(n: nat, stop: Stop)
    ensures Inv(n, Init(n, stop))
  {
    IotaIsSlots(n);
  }

  /** The length side of conservation. */
  lemma Sizes(n: nat, s: State)
    requires Conserved(n, s)
    ensures |s.main.loop.free| + |s.running| + |s.completed| == n
  {
    assert |multiset(s.main.loop.free) + s.running + multiset(s.completed)| == n;
  }

  /** A slot moves from one place to the next; nothing else changes hands. */
  lemma PopMoves(free: seq<nat>, running: multiset<nat>)
    requires free != []
    ensures multiset(free[..|free| - 1]) + (running + multiset{free[|free| - 1]}) == multiset(free) + running
  {
    LastOut(free);
  }

  /** One task takes the last free slot, or nothing moves. */
  lemma StartMoves(s: State)
    requires s.main.pc.Starting?
    ensures var t, free := StartStep(s), s.main.loop.free;
            && t.completed == s.completed
            && (if s.main.pc.pending != [] && free != [] then
                  t.main.loop.free == free[..|free| - 1] && t.running == s.running + multiset{free[|free| - 1]}
                else t.main.loop.free == free && t.running == s.running)
  {
  }

  lemma StartConserves(n: nat, s: State)
    requires Conserved(n, s) && s.main.pc.Starting?
    ensures Conserved(n, StartStep(s))
  {
    StartMoves(s);
    if s.main.pc.pending != [] && s.main.loop.free != [] {
      PopMoves(s.main.loop.free, s.running);
    }
  }

  lemma Around(a: multiset<nat>, b: multiset<nat>, c: multiset<nat>, d: multiset<nat>, m: multiset<nat>)
    requires a + b == c + d
    ensures a + m + b == c + m + d
  {
    assert a + m + b == (a + b) + m;
    assert c + m + d == (c + d) + m;
  }

  lemma QueueMoves(free: seq<nat>, q: seq<nat>)
    requires q != []
    ensures multiset(free + [q[0]]) + multiset(q[1..]) == multiset(free) + multiset(q)
  {
    FirstOut(q);
  }

  lemma CompletedConserves(n: nat, s: State)
    requires Conserved(n, s) && MainEnabled(s, TakeCompleted)
    ensures Conserved(n, MainStep(n, s, TakeCompleted))
  {
    var t := MainStep(n, s, TakeCompleted);
    var free, q := s.main.loop.free, s.completed;
    QueueMoves(free, q);
    assert t.main.loop.free == free + [q[0]];
    assert t.running == s.running && t.completed == q[1..];
    Around(multiset(free + [q[0]]), multiset(q[1..]), multiset(free), multiset(q), s.running);
  }

  lemma ReturnMoves(running: multiset<nat>, completed: seq<nat>, slot: nat)
    requires running[slot] > 0
    ensures (running - multiset{slot}) + multiset(completed + [slot]) == running + multiset(completed)
  {
  }

  lemma ReturnConserves(n: nat, s: State, slot: nat)
    requires Conserved(n, s) && Enabled(n, s, TaskReturn(slot))
    ensures Conserved(n, Apply(n, s, TaskReturn(slot)))
  {
    var t := Apply(n, s, TaskReturn(slot));
    ReturnMoves(s.running, s.completed, slot);
    assert t.main.loop.free == s.main.loop.free;
    assert t.running == s.running - multiset{slot} && t.completed == s.completed + [slot];
  }

  predicate SameSlots(s: State, t: State) {
    t.main.loop.free == s.main.loop.free && t.running == s.running && t.completed == s.completed
  }

  lemma MainMovesNothing(n: nat, s: State, a: MainAct)
    requires MainEnabled(s, a) && !a.StartOne? && !a.TakeCompleted?
    ensures SameSlots(s, MainStep(n, s, a))
  {
    match a
    case TakeResponse(e) =>
    case _ =>
  }

  lemma OtherMovesNothing(n: nat, s: State, a: Label)
    requires Enabled(n, s, a) && !a.Main? && !a.TaskReturn?
    ensures SameSlots(s, Apply(n, s, a))
  {
    match a
    case Claimer(_) =>
    case _ =>
  }

  lemma StepConserves(n: nat, s: State, a: Label)
    requires Conserved(n, s) && Enabled(n, s, a)
    ensures Conserved(n, Apply(n, s, a))
  {
    match a
    case TaskReturn(slot) => ReturnConserves(n, s, slot);
    case Main(StartOne) => StartConserves(n, s);
    case Main(TakeCompleted) => CompletedConserves(n, s);
    case Main(m) => MainMovesNothing(n, s, m);
    case _ => OtherMovesNothing(n, s, a);
  }

  // What each arm of the select does to the token

  lemma EndsKeepToken(n: nat, l: Loop, c: ClaimPc, finish: bool)
    requires TokenAt(At(l, Selecting), c)
    ensures TokenAt(OnCtxDone(n, l), c) && TokenAt(OnStop(l, finish), c)
    ensures c.Dead? ==> TokenAt(OnClosed(n, l), c)
  {
  }

  lemma CompletedKeepsToken(n: nat, l: Loop, c: ClaimPc, slot: nat)
    requires TokenAt(At(l, Selecting), c)
    ensures TokenAt(OnCompleted(n, l, slot), c)
  {
  }

  lemma ResponseKeepsToken(l: Loop, c: ClaimPc, elapsed: bool)
    requires TokenAt(At(l, Selecting), c) && c.Delivering?
    ensures TokenAt(OnResponse(l, c.tasks, elapsed), Returning)
  {
  }

  lemma StartKeepsToken(l: Loop, pending: seq<Task>, c: ClaimPc)
    requires TokenAt(At(l, Starting(pending)), c)
    ensures TokenAt(StartNext(l, pending), c) && !StartNext(l, pending).pc.Panicked?
  {
  }

  lemma RequestKeepsToken(l: Loop, k: int, c: ClaimPc)
    requires k >= 0 && TokenAt(At(l, Sending(k)), c)
    ensures TokenAt(At(l, Selecting), Working(k))
  {
  }

  lemma MainKeepsToken(n: nat, s: State, a: MainAct)
    requires Token(s) && MainEnabled(s, a)
    ensures Token(MainStep(n, s, a))
  {
    var l, c := s.main.loop, s.claimer;
    match a
    case TakeCtx => EndsKeepToken(n, l, c, true);
    case TakeStop => EndsKeepToken(n, l, c, StopValue(s.stop));
    case TakeClosed => EndsKeepToken(n, l, c, true);
    case TakeCompleted => CompletedKeepsToken(n, l, c, s.completed[0]);
    case TakeResponse(elapsed) => ResponseKeepsToken(l, c, elapsed);
    case StartOne => StartKeepsToken(l, s.main.pc.pending, c);
    case Request => RequestKeepsToken(l, s.main.pc.n, c);
  }

  lemma ClaimKeepsToken(s: State, a: ClaimAct)
    requires Token(s) && ClaimEnabled(s, a) && Honest(s, Claimer(a))
    ensures Token(ClaimStep(s, a))
  {
  }

  lemma StepKeepsToken(n: nat, s: State, a: Label)
    requires Token(s) && Enabled(n, s, a) && Honest(s, a)
    ensures Token(Apply(n, s, a))
  {
    match a
    case Main(m) => MainKeepsToken(n, s, m);
    case Claimer(c) => ClaimKeepsToken(s, c);
    case _ => assert Apply(n, s, a).main == s.main && Apply(n, s, a).claimer == s.claimer;
  }

  // and to the flags

  lemma EndsKeepFlags(n: nat, l: Loop, c: ClaimPc, finishSeen: bool, finish: bool)
    requires FlagsAt(n, At(l, Selecting), c, finishSeen)
    ensures FlagsAt(n, OnCtxDone(n, l), c, finishSeen)
    ensures FlagsAt(n, OnClosed(n, l), c, finishSeen)
    ensures FlagsAt(n, OnStop(l, finish), c, finishSeen || finish)
  {
  }

  lemma CompletedKeepsFlags(n: nat, l: Loop, c: ClaimPc, finishSeen: bool, slot: nat)
    requires FlagsAt(n, At(l, Selecting), c, finishSeen) && |l.free| < n
    ensures FlagsAt(n, OnCompleted(n, l, slot), c, finishSeen)
  {
  }

  lemma ResponseKeepsFlags(n: nat, l: Loop, c: ClaimPc, finishSeen: bool, elapsed: bool)
    requires FlagsAt(n, At(l, Selecting), c, finishSeen) && c.Delivering?
    ensures FlagsAt(n, OnResponse(l, c.tasks, elapsed), Returning, finishSeen)
  {
  }

  lemma StartKeepsFlags(n: nat, l: Loop, pending: seq<Task>, c: ClaimPc, finishSeen: bool)
    requires FlagsAt(n, At(l, Starting(pending)), c, finishSeen)
    requires TokenAt(At(l, Starting(pending)), c) && |l.free| <= n
    ensures FlagsAt(n, StartNext(l, pending), c, finishSeen)
  {
  }

  lemma TakeCtxKeepsFlags(n: nat, s: State)
    requires Flags(n, s) && MainEnabled(s, TakeCtx)
    ensures Flags(n, MainStep(n, s, TakeCtx))
  {
    EndsKeepFlags(n, s.main.loop, s.claimer, s.hist.finishSeen, true);
  }

  lemma TakeStopKeepsFlags(n: nat, s: State)
    requires Flags(n, s) && MainEnabled(s, TakeStop)
    ensures Flags(n, MainStep(n, s, TakeStop))
  {
    EndsKeepFlags(n, s.main.loop, s.claimer, s.hist.finishSeen, StopValue(s.stop));
  }

  lemma TakeClosedKeepsFlags(n: nat, s: State)
    requires Flags(n, s) && MainEnabled(s, TakeClosed)
    ensures Flags(n, MainStep(n, s, TakeClosed))
  {
    EndsKeepFlags(n, s.main.loop, s.claimer, s.hist.finishSeen, true);
  }

  lemma TakeCompletedKeepsFlags(n: nat, s: State)
    requires Flags(n, s) && MainEnabled(s, TakeCompleted) && |s.main.loop.free| < n
    ensures Flags(n, MainStep(n, s, TakeCompleted))
  {
    CompletedKeepsFlags(n, s.main.loop, s.claimer, s.hist.finishSeen, s.completed[0]);
  }

  lemma TakeResponseKeepsFlags(n: nat, s: State, elapsed: bool)
    requires Flags(n, s) && MainEnabled(s, TakeResponse(elapsed))
    ensures Flags(n, ResponseStep(s, elapsed))
  {
    ResponseKeepsFlags(n, s.main.loop, s.claimer, s.hist.finishSeen, elapsed);
  }

  lemma StartOneKeepsFlags(n: nat, s: State)
    requires Token(s) && Flags(n, s) && MainEnabled(s, StartOne) && |s.main.loop.free| <= n
    ensures Flags(n, StartStep(s))
  {
    StartKeepsFlags(n, s.main.loop, s.main.pc.pending, s.claimer, s.hist.finishSeen);
  }

  lemma RequestKeepsFlags(n: nat, s: State)
    requires Flags(n, s) && MainEnabled(s, Request)
    ensures Flags(n, MainStep(n, s, Request))
  {
  }

  lemma MainKeepsFlags(n: nat, s: State, a: MainAct)
    requires Token(s) && Flags(n, s) && MainEnabled(s, a)
    requires |s.main.loop.free| + |s.completed| <= n
    ensures Flags(n, MainStep(n, s, a))
  {
    match a
    case TakeCtx => TakeCtxKeepsFlags(n, s);
    case TakeStop => TakeStopKeepsFlags(n, s);
    case TakeClosed => TakeClosedKeepsFlags(n, s);
    case TakeCompleted => TakeCompletedKeepsFlags(n, s);
    case TakeResponse(elapsed) => TakeResponseKeepsFlags(n, s, elapsed);
    case StartOne => StartOneKeepsFlags(n, s);
    case Request => RequestKeepsFlags(n, s);
  }

  lemma StepKeepsFlags(n: nat, s: State, a: Label)
    requires Token(s) && Flags(n, s) && Enabled(n, s, a)
    requires |s.main.loop.free| + |s.completed| <= n
    ensures Flags(n, Apply(n, s, a))
  {
    match a
    case Main(m) => MainKeepsFlags(n, s, m);
    case Claimer(_) =>
    case _ => assert Apply(n, s, a).main == s.main && Apply(n, s, a).hist == s.hist;
  }

  lemma StartKeepsAccounts(s: State)
    requires Accounted(s) && s.main.pc.Starting?
    ensures Accounted(StartStep(s)) || StartStep(s).main.pc.Panicked?
  {
    var p := s.main.pc.pending;
    if p != [] {
      assert s.hist.started + p == s.hist.started + [p[0]] + p[1..];
    }
  }

  lemma MainKeepsAccounts(n: nat, s: State, a: MainAct)
    requires Accounted(s) && MainEnabled(s, a) && !a.StartOne?
    ensures Accounted(MainStep(n, s, a))
  {
    match a
    case TakeResponse(e) => assert s.hist.dropped + [] == s.hist.dropped;
    case _ =>
  }

  lemma StepKeepsAccounts(n: nat, s: State, a: Label)
    requires Accounted(s) && Enabled(n, s, a)
    ensures Accounted(Apply(n, s, a)) || Apply(n, s, a).main.pc.Panicked?
  {
    match a
    case Main(StartOne) => StartKeepsAccounts(s);
    case Main(m) => MainKeepsAccounts(n, s, m);
    case Claimer(_) =>
    case _ =>
  }

  lemma StepKeepsInv(n: nat, s: State, a: Label)
    requires Inv(n, s) && Enabled(n, s, a) && Honest(s, a)
    ensures Inv(n, Apply(n, s, a))
  {
    Sizes(n, s);
    StepConserves(n, s, a);
    StepKeepsToken(n, s, a);
    StepKeepsFlags(n, s, a);
    StepKeepsAccounts(n, s, a);
  }

  lemma {:induction false} EveryRunKeepsInv(n: nat, s: State, run: seq<Label>, t: State)
    requires Inv(n, s) && Reaches(n, s, run, t)
    ensures Inv(n, t)
    decreases |run|
  {
    if run != [] {
      StepKeepsInv(n, s, run[0]);
      EveryRunKeepsInv(n, Apply(n, s, run[0]), run[1..], t);
    }
  }

  // ---------------------------------------------------------------- the theorems

  lemma SlotsOnce(n: nat, free: seq<nat>, running: multiset<nat>, completed: seq<nat>)
    requires multiset(free) + running + multiset(completed) == Slots(n)
    ensures forall i: nat :: multiset(free)[i] + running[i] + multiset(completed)[i] <= 1
    ensures forall i: nat :: running[i] > 0 ==> i < n && |completed| < n
  {
    var all := multiset(free) + running + multiset(completed);
    forall i: nat
      ensures multiset(free)[i] + running[i] + multiset(completed)[i] == if i < n then 1 else 0
    {
      assert all[i] == Slots(n)[i];
    }
    assert |all| == |free| + |running| + |completed|;
  }

  /** No two tasks share a slot, a free slot is not in use, at most `n` tasks run, and a
      task that ends can always put its slot into `completedTasks`, before and after
      `Run` has returned. */
  lemma SlotsAreConserved(n: nat, stop: Stop, run: seq<Label>, t: State)
    requires Reaches(n, Init(n, stop), run, t)
    ensures multiset(t.main.loop.free) + t.running + multiset(t.completed) == Slots(n)
    ensures |t.running| + |t.completed| + |t.main.loop.free| == n
    ensures forall i: nat :: multiset(t.main.loop.free)[i] + t.running[i] + multiset(t.completed)[i] <= 1
    ensures forall i: nat :: t.running[i] > 0 ==> i < n && Enabled(n, t, TaskReturn(i))
  {
    InitInv(n, stop);
    EveryRunKeepsInv(n, Init(n, stop), run, t);
    Sizes(n, t);
    SlotsOnce(n, t.main.loop.free, t.running, t.completed);
  }

  /** When the main loop sends on `workReq`, the claimer is alive and receives next, after at
      most one action of its own; so the two never wait for each other to receive. */
  lemma RequestNeverHangs(n: nat, stop: Stop, run: seq<Label>, t: State)
    requires Reaches(n, Init(n, stop), run, t)
    requires t.main.pc.Sending?
    ensures !t.claimer.Dead? && !t.claimer.Working? && !t.claimer.Delivering?
    ensures Enabled(n, t, Main(Request)) ||
            (Enabled(n, t, Claimer(Park)) && Enabled(n, Apply(n, t, Claimer(Park)), Main(Request)))
  {
    InitInv(n, stop);
    EveryRunKeepsInv(n, Init(n, stop), run, t);
  }

  /** The outstanding request never exceeds the free slots, although completions race with
      it, so no pop from `freeSlots` is out of range. */
  lemma CreditIsBounded(n: nat, stop: Stop, run: seq<Label>, t: State)
    requires Reaches(n, Init(n, stop), run, t)
    ensures t.claimer.Working? || t.claimer.Delivering? ==> t.claimer.n <= |t.main.loop.free|
    ensures t.claimer.Delivering? ==> |t.claimer.tasks| <= |t.main.loop.free|
    ensures t.main.pc.Starting? ==> |t.main.pc.pending| <= |t.main.loop.free|
    ensures t.main.pc.Sending? ==> t.main.pc.n == |t.main.loop.free|
    ensures !t.main.pc.Panicked?
  {
    InitInv(n, stop);
    EveryRunKeepsInv(n, Init(n, stop), run, t);
  }

  /** While not shutting down a free slot means an outstanding request, or a dead claimer
      whose close is still unread; and a full loop has no request. */
  lemma WorkIsConserved(n: nat, stop: Stop, run: seq<Label>, t: State)
    requires Reaches(n, Init(n, stop), run, t)
    requires t.main.pc.Selecting?
    ensures !t.main.loop.shuttingDown && t.main.loop.free != [] ==>
              InFlight(t.claimer) || Enabled(n, t, Main(TakeClosed))
    ensures t.main.loop.isFull ==> t.main.loop.free == [] && !InFlight(t.claimer) && !t.claimer.Dead?
    ensures t.main.loop.isFull && n > 0 ==> t.running != multiset{} || t.completed != []
  {
    InitInv(n, stop);
    EveryRunKeepsInv(n, Init(n, stop), run, t);
    Sizes(n, t);
  }

  /** Outside the loop that starts them, the tasks of the accepted responses have been started,
      each once and in order; and before the shutdown no response is discarded. */
  lemma TasksAreAccounted(n: nat, stop: Stop, run: seq<Label>, t: State)
    requires Reaches(n, Init(n, stop), run, t)
    ensures t.hist.started <= t.hist.accepted
    ensures !t.main.pc.Starting? ==> t.hist.started == t.hist.accepted
    ensures !t.main.loop.shuttingDown ==> t.hist.dropped == []
  {
    InitInv(n, stop);
    EveryRunKeepsInv(n, Init(n, stop), run, t);
  }

  /** `idleSince` is set exactly when every slot is free, which is when no task runs and no
      completion is unread; so an idle shutdown leaves nothing behind. */
  lemma IdleIsAccurate(n: nat, stop: Stop, run: seq<Label>, t: State)
    requires Reaches(n, Init(n, stop), run, t)
    ensures t.main.loop.idle <==> |t.main.loop.free| == n
    ensures t.main.loop.idle <==> t.running == multiset{} && t.completed == []
    ensures t.main.pc == Returned(IdleShutdown) ==>
              t.main.loop.idle && !InFlight(t.claimer) && t.hist.started == t.hist.accepted
  {
    InitInv(n, stop);
    EveryRunKeepsInv(n, Init(n, stop), run, t);
    Sizes(n, t);
  }

  /** What a response does: it shuts an idle worker down exactly if it is empty, the idle limit
      has passed and all slots are free; otherwise its tasks are all started, or all dropped if
      the loop is shutting down. */
  lemma ResponseExactly(n: nat, stop: Stop, run: seq<Label>, s: State, passed: bool)
    requires Reaches(n, Init(n, stop), run, s) && Enabled(n, s, Main(TakeResponse(passed)))
    ensures var u, tasks := Apply(n, s, Main(TakeResponse(passed))), s.claimer.tasks;
            var shutdown := passed && tasks == [] && |s.main.loop.free| == n;
            && u.claimer == Returning && u.main.loop == s.main.loop
            && (u.main.pc == Returned(IdleShutdown) <==> shutdown)
            && (!shutdown && !s.main.loop.shuttingDown ==>
                  u.main.pc == Starting(tasks) && u.hist.accepted == s.hist.accepted + tasks)
            && (!shutdown && s.main.loop.shuttingDown ==>
                  u.main.pc == Selecting && u.hist.dropped == s.hist.dropped + tasks)
  {
    IdleIsAccurate(n, stop, run, s);
  }

  /** All tasks that the queue has handed out. */
  function Claimed(run: seq<Label>): seq<Task> {
    if run == [] then []
    else
      var a := run[|run| - 1];
      Claimed(run[..|run| - 1]) + if a.Claimer? && a.claim.Obtain? then a.claim.tasks else []
  }

  /** They have been accepted, discarded, or are still in the hands of the claimer. */
  predicate InHand(s: State, claimed: seq<Task>) {
    claimed == s.hist.accepted + s.hist.dropped + if s.claimer.Delivering? then s.claimer.tasks else []
  }

  lemma ResponseKeepsClaims(s: State, passed: bool, claimed: seq<Task>)
    requires Accounted(s) && InHand(s, claimed) && MainEnabled(s, TakeResponse(passed))
    ensures InHand(ResponseStep(s, passed), claimed)
  {
    var h, tasks := s.hist, s.claimer.tasks;
    if h.dropped == [] {
      assert h.accepted + h.dropped + tasks == h.accepted + tasks + [] + [];
      assert h.accepted + h.dropped + tasks == h.accepted + ([] + tasks) + [];
    } else {
      assert h.accepted + h.dropped + tasks == h.accepted + (h.dropped + tasks) + [];
    }
  }

  lemma MainKeepsClaims(n: nat, s: State, a: MainAct, claimed: seq<Task>)
    requires InHand(s, claimed) && MainEnabled(s, a) && !a.TakeResponse?
    ensures InHand(MainStep(n, s, a), claimed)
  {
    MainLeavesClaims(n, s, a);
  }

  lemma MainLeavesClaims(n: nat, s: State, a: MainAct)
    requires MainEnabled(s, a) && !a.TakeResponse?
    ensures var t := MainStep(n, s, a);
            && t.hist.accepted == s.hist.accepted && t.hist.dropped == s.hist.dropped
            && (a.Request? ==> !s.claimer.Delivering? && !t.claimer.Delivering?)
            && (!a.Request? ==> t.claimer == s.claimer)
  {
  }

  lemma ClaimKeepsClaims(s: State, a: ClaimAct, claimed: seq<Task>)
    requires InHand(s, claimed) && ClaimEnabled(s, a)
    ensures InHand(ClaimStep(s, a), claimed + if a.Obtain? then a.tasks else [])
  {
  }

  lemma StepKeepsClaims(n: nat, s: State, a: Label, claimed: seq<Task>)
    requires Accounted(s) && InHand(s, claimed) && Enabled(n, s, a)
    ensures InHand(Apply(n, s, a), claimed + if a.Claimer? && a.claim.Obtain? then a.claim.tasks else [])
  {
    assert claimed + [] == claimed;
    match a
    case Main(TakeResponse(passed)) => ResponseKeepsClaims(s, passed, claimed);
    case Main(m) => MainKeepsClaims(n, s, m, claimed);
    case Claimer(c) => ClaimKeepsClaims(s, c, claimed);
    case _ => assert Apply(n, s, a).hist == s.hist && Apply(n, s, a).claimer == s.claimer;
  }

  lemma ClaimedNext(past: seq<Label>, a: Label)
    ensures Claimed(past + [a]) ==
            Claimed(past) + if a.Claimer? && a.claim.Obtain? then a.claim.tasks else []
  {
    assert (past + [a])[..|past|] == past;
  }

  lemma Later(past: seq<Label>, run: seq<Label>)
    requires run != []
    ensures past + [run[0]] + run[1..] == past + run
  {
  }

  lemma {:induction false} EveryRunKeepsClaims(n: nat, past: seq<Label>, s: State, run: seq<Label>, t: State)
    requires Inv(n, s) && InHand(s, Claimed(past)) && Reaches(n, s, run, t)
    ensures InHand(t, Claimed(past + run))
    decreases |run|
  {
    if run == [] {
      assert past + run == past;
    } else {
      var a := run[0];
      StepKeepsInv(n, s, a);
      StepKeepsClaims(n, s, a, Claimed(past));
      ClaimedNext(past, a);
      EveryRunKeepsClaims(n, past + [a], Apply(n, s, a), run[1..], t);
      Later(past, run);
    }
  }

  /** No claimed task is lost inside the worker, and none is made up: in the order in which they
      were claimed, tasks are accepted, then discarded, and the last ones may still be on their
      way to the loop. */
  lemma ClaimsAreAccounted(n: nat, stop: Stop, run: seq<Label>, t: State)
    requires Reaches(n, Init(n, stop), run, t)
    ensures Claimed(run) == t.hist.accepted + t.hist.dropped +
                            if t.claimer.Delivering? then t.claimer.tasks else []
  {
    InitInv(n, stop);
    EveryRunKeepsClaims(n, [], Init(n, stop), run, t);
    assert [] + run == run;
  }

  // -------------------------------------------------------------- shutting down

  /** Once set, `isShuttingDown` stays set, and no further task is accepted or started. */
  lemma {:induction false} ShutdownStartsNothing(n: nat, s: State, run: seq<Label>, t: State)
    requires Inv(n, s) && s.main.loop.shuttingDown && Reaches(n, s, run, t)
    ensures t.main.loop.shuttingDown
    ensures t.hist.started == s.hist.started && t.hist.accepted == s.hist.accepted
    ensures s.hist.dropped <= t.hist.dropped
    decreases |run|
  {
    if run != [] {
      var u := Apply(n, s, run[0]);
      StepKeepsInv(n, s, run[0]);
      ShutdownStepStartsNothing(n, s, run[0]);
      ShutdownStartsNothing(n, u, run[1..], t);
    }
  }

  lemma ShutdownStepStartsNothing(n: nat, s: State, a: Label)
    requires Token(s) && s.main.loop.shuttingDown && Enabled(n, s, a)
    ensures var u := Apply(n, s, a);
            u.main.loop.shuttingDown && u.hist.started == s.hist.started &&
            u.hist.accepted == s.hist.accepted && s.hist.dropped <= u.hist.dropped
  {
    match a
    case Main(m) => MainStartsNothing(n, s, m);
    case Claimer(_) =>
    case _ =>
  }

  lemma MainStartsNothing(n: nat, s: State, a: MainAct)
    requires Token(s) && s.main.loop.shuttingDown && MainEnabled(s, a)
    ensures var u := MainStep(n, s, a);
            u.main.loop.shuttingDown && u.hist.started == s.hist.started &&
            u.hist.accepted == s.hist.accepted && s.hist.dropped <= u.hist.dropped
  {
    match a
    case TakeResponse(e) =>
    case StartOne =>
    case _ =>
  }

  function StopWork(stop: Stop): nat {
    if stop.NoStop? then 0
    else |stop.buf| + (if stop.sent then 0 else 2) + (if stop.closed then 0 else 1)
  }

  function ClaimWork(c: ClaimPc): nat {
    match c
    case Working(_) => 4
    case Delivering(_, _) => 3
    case Returning => 2
    case Parked => 1
    case Dead => 0
  }

  function LoopWork(c: Control): nat {
    (if c.loop.isFull then 5 else 0) + (if c.pc.Sending? then 4 else 0) +
    (if c.loop.resOpen then 1 else 0) + (if c.loop.ctxArmed then 1 else 0) +
    (if c.pc.Returned? then 0 else 1)
  }

  /** What is left to happen once the loop is shutting down. */
  function Remaining(s: State): nat {
    2 * |s.running| + |s.completed| + Rest(s.main, s.claimer, s.stop) +
    (if s.ctxDone then 0 else 1) + (if s.safeDone then 0 else 1)
  }

  /** The work of all but the running tasks and their completions. */
  function Rest(main: Control, c: ClaimPc, stop: Stop): nat {
    LoopWork(main) + ClaimWork(c) + StopWork(stop)
  }

  lemma EndsDecrease(n: nat, l: Loop)
    requires l.shuttingDown
    ensures l.ctxArmed ==> LoopWork(OnCtxDone(n, l)) < LoopWork(At(l, Selecting))
    ensures l.resOpen ==> LoopWork(OnClosed(n, l)) < LoopWork(At(l, Selecting))
  {
  }

  lemma StopDecreases(l: Loop, stop: Stop)
    requires l.shuttingDown && StopReady(stop)
    ensures LoopWork(OnStop(l, StopValue(stop))) + StopWork(StopRest(stop)) <
            LoopWork(At(l, Selecting)) + StopWork(stop)
  {
  }

  lemma CompletedDecreases(n: nat, l: Loop, slot: nat)
    ensures LoopWork(OnCompleted(n, l, slot)) <= LoopWork(At(l, Selecting))
  {
  }

  lemma ResponseDecreases(l: Loop, tasks: seq<Task>, elapsed: bool)
    requires l.shuttingDown
    ensures LoopWork(OnResponse(l, tasks, elapsed)) <= LoopWork(At(l, Selecting))
  {
  }

  /** The end of `Run` only adds cancellations. */
  lemma MainRest(n: nat, s: State, a: MainAct)
    requires MainEnabled(s, a) && !a.StartOne?
    ensures var t := MainStep(n, s, a);
            && t.running == s.running && (s.ctxDone ==> t.ctxDone) && (s.safeDone ==> t.safeDone)
            && |t.completed| == |s.completed| - if a.TakeCompleted? then 1 else 0
  {
  }

  lemma MainDecreases(n: nat, s: State, a: MainAct)
    requires Token(s) && s.main.loop.shuttingDown && MainEnabled(s, a)
    ensures var t := MainStep(n, s, a);
            Rest(t.main, t.claimer, t.stop) <
            Rest(s.main, s.claimer, s.stop) + if a.TakeCompleted? then 1 else 0
  {
    var l := s.main.loop;
    match a
    case TakeCtx => EndsDecrease(n, l);
    case TakeClosed => EndsDecrease(n, l);
    case TakeStop => StopDecreases(l, s.stop);
    case TakeCompleted => CompletedDecreases(n, l, s.completed[0]);
    case TakeResponse(e) => ResponseDecreases(l, s.claimer.tasks, e);
    case StartOne =>
    case Request =>
  }

  lemma MainStepDecreases(n: nat, s: State, a: MainAct)
    requires Token(s) && s.main.loop.shuttingDown && MainEnabled(s, a)
    ensures Remaining(MainStep(n, s, a)) < Remaining(s)
  {
    MainRest(n, s, a);
    MainDecreases(n, s, a);
  }

  lemma ClaimDecreases(s: State, a: ClaimAct)
    requires ClaimEnabled(s, a)
    ensures Remaining(ClaimStep(s, a)) + (if a == Retry then 0 else 1) <= Remaining(s)
  {
  }

  lemma TaskDecreases(n: nat, s: State, slot: nat)
    requires Enabled(n, s, TaskReturn(slot))
    ensures Remaining(Apply(n, s, TaskReturn(slot))) < Remaining(s)
  {
    assert |s.running - multiset{slot}| == |s.running| - 1;
  }

  lemma ShutdownStepDecreases(n: nat, s: State, a: Label)
    requires Token(s) && s.main.loop.shuttingDown && Enabled(n, s, a)
    ensures Remaining(Apply(n, s, a)) + (if a == Claimer(Retry) then 0 else 1) <= Remaining(s)
  {
    match a
    case TaskReturn(slot) => TaskDecreases(n, s, slot);
    case Main(m) => MainStepDecreases(n, s, m);
    case Claimer(c) => ClaimDecreases(s, c);
    case _ =>
  }

  /** The actions of a schedule other than repeated attempts to claim. */
  function Busy(run: seq<Label>): nat {
    if run == [] then 0 else (if run[0] == Claimer(Retry) then 0 else 1) + Busy(run[1..])
  }

  lemma {:induction false} ShutdownRunsOut(n: nat, s: State, run: seq<Label>, t: State)
    requires Inv(n, s) && s.main.loop.shuttingDown && Reaches(n, s, run, t)
    ensures Busy(run) + Remaining(t) <= Remaining(s)
    decreases |run|
  {
    if run != [] {
      StepKeepsInv(n, s, run[0]);
      ShutdownStepStartsNothing(n, s, run[0]);
      ShutdownStepDecreases(n, s, run[0]);
      ShutdownRunsOut(n, Apply(n, s, run[0]), run[1..], t);
    }
  }

  /** The actions that drain the worker: none of them depends on the queue or on a context. */
  predicate DrainAction(a: Label) {
    a.TaskReturn? || a == Main(TakeCompleted) || a == Main(Request) || a == Claimer(Park)
  }

  /** While a slot is in use the loop is not stuck: a draining action can happen. */
  lemma DrainAdvances(n: nat, s: State)
    requires Inv(n, s) && !s.main.pc.Returned? && !s.main.pc.Starting?
    requires s.main.pc.Sending? || |s.main.loop.free| < n
    ensures exists a :: DrainAction(a) && Enabled(n, s, a)
  {
    Sizes(n, s);
    if s.main.pc.Sending? {
      var a := if s.claimer.Parked? then Main(Request) else Claimer(Park);
      assert DrainAction(a) && Enabled(n, s, a);
    } else if s.completed != [] {
      assert DrainAction(Main(TakeCompleted)) && Enabled(n, s, Main(TakeCompleted));
    } else {
      assert |s.running| > 0;
      var slot :| slot in s.running;
      assert DrainAction(TaskReturn(slot)) && Enabled(n, s, TaskReturn(slot));
    }
  }

  /** A completion received while shutting down lowers the number of slots in use by one, and
      returns from `Run` exactly when it brings it to zero. */
  lemma CompletionDrains(n: nat, s: State)
    requires Inv(n, s) && s.main.loop.shuttingDown && Enabled(n, s, Main(TakeCompleted))
    ensures var u := Apply(n, s, Main(TakeCompleted));
            && n - |u.main.loop.free| == n - |s.main.loop.free| - 1
            && (u.main.pc.Returned? <==> |u.main.loop.free| == n)
            && (u.main.pc.Returned? ==> u.main.pc.why == Drained)
  {
    var l := s.main.loop;
    assert Apply(n, s, Main(TakeCompleted)).main == OnCompleted(n, l, s.completed[0]);
  }

  /** The completions received in a schedule. */
  function Completions(run: seq<Label>): nat {
    if run == [] then 0 else (if run[0] == Main(TakeCompleted) then 1 else 0) + Completions(run[1..])
  }

  lemma MainFreesByCompletion(n: nat, s: State, a: MainAct)
    requires !s.main.pc.Starting? && MainEnabled(s, a)
    ensures |MainStep(n, s, a).main.loop.free| == |s.main.loop.free| + if a == TakeCompleted then 1 else 0
  {
    match a
    case TakeResponse(elapsed) => assert ResponseStep(s, elapsed).main.loop.free == s.main.loop.free;
    case _ =>
  }

  lemma ShutdownFreesByCompletion(n: nat, s: State, a: Label)
    requires Token(s) && s.main.loop.shuttingDown && Enabled(n, s, a)
    ensures |Apply(n, s, a).main.loop.free| ==
            |s.main.loop.free| + if a == Main(TakeCompleted) then 1 else 0
  {
    if a.Main? {
      MainFreesByCompletion(n, s, a.act);
    } else {
      assert Apply(n, s, a).main == s.main;
    }
  }

  /** During shutdown the slots in use fall by one with each completion received and never
      otherwise; so a drained `Run` has received one for every slot that was in use. */
  lemma {:induction false} CompletionsCountDown(n: nat, s: State, run: seq<Label>, t: State)
    requires Inv(n, s) && s.main.loop.shuttingDown && Reaches(n, s, run, t)
    ensures |t.main.loop.free| == |s.main.loop.free| + Completions(run)
    ensures t.main.pc == Returned(Drained) ==> Completions(run) == n - |s.main.loop.free|
    decreases |run|
  {
    if run == [] {
      assert t == s;
    } else {
      StepKeepsInv(n, s, run[0]);
      ShutdownStepStartsNothing(n, s, run[0]);
      ShutdownFreesByCompletion(n, s, run[0]);
      CompletionsCountDown(n, Apply(n, s, run[0]), run[1..], t);
    }
  }

  /** After the loop begins to shut down, every schedule has at most `2n + 17` further actions
      apart from claim attempts. A schedule that leaves no draining action possible has
      returned from `Run`, with every slot free unless `stopCh` delivered `false`; the only
      exception is a `stopCh` that delivered `true`, after which `Run` waits with all slots free. */
  lemma ShutdownDrains(n: nat, stop: Stop, before: seq<Label>, s: State, run: seq<Label>, t: State)
    requires FreshStop(stop) && Reaches(n, Init(n, stop), before, s)
    requires s.main.loop.shuttingDown && Reaches(n, s, run, t)
    ensures Busy(run) <= 2 * n + 17
    ensures (forall a :: DrainAction(a) ==> !Enabled(n, t, a)) ==>
              (t.main.pc.Returned? && (t.main.pc.why != Immediate ==> |t.main.loop.free| == n)) ||
              (t.main.pc.Selecting? && t.hist.finishSeen && |t.main.loop.free| == n)
  {
    InitInv(n, stop);
    EveryRunKeepsInv(n, Init(n, stop), before, s);
    EveryRunKeepsInv(n, s, run, t);
    ShutdownRunsOut(n, s, run, t);
    ShutdownStartsNothing(n, s, run, t);
    EveryRunKeepsStop(n, Init(n, stop), before, s);
    Sizes(n, s);
    Sizes(n, t);
    if !t.main.pc.Returned? && (t.main.pc.Sending? || |t.main.loop.free| < n) {
      DrainAdvances(n, t);
    }
  }

  predicate StopInv(stop: Stop) {
    stop.StopCh? ==> |stop.buf| <= (if stop.sent then 1 else 0)
  }

  lemma {:induction false} EveryRunKeepsStop(n: nat, s: State, run: seq<Label>, t: State)
    requires StopInv(s.stop) && Reaches(n, s, run, t)
    ensures StopInv(t.stop)
    decreases |run|
  {
    if run != [] {
      EveryRunKeepsStop(n, Apply(n, s, run[0]), run[1..], t);
    }
  }

  predicate FinishInv(s: State) {
    StopInv(s.stop) &&
    (s.hist.finishSeen ==> s.main.loop.shuttingDown && s.stop.StopCh? && s.stop.sent && s.stop.buf == [])
  }

  lemma MainKeepsFinish(n: nat, s: State, a: MainAct)
    requires FinishInv(s) && MainEnabled(s, a)
    ensures FinishInv(MainStep(n, s, a))
  {
    if s.main.loop.shuttingDown {
      ShutdownStays(n, s, a);
    }
    if a != TakeStop {
      OnlyStopTakes(n, s, a);
    }
  }

  lemma ShutdownStays(n: nat, s: State, a: MainAct)
    requires MainEnabled(s, a) && s.main.loop.shuttingDown
    ensures MainStep(n, s, a).main.loop.shuttingDown
  {
    var l := s.main.loop;
    match a
    case TakeCtx => assert MainStep(n, s, TakeCtx).main == OnCtxDone(n, l);
    case TakeStop => assert MainStep(n, s, TakeStop).main == OnStop(l, StopValue(s.stop));
    case TakeCompleted => assert MainStep(n, s, TakeCompleted).main == OnCompleted(n, l, s.completed[0]);
    case TakeClosed => assert MainStep(n, s, TakeClosed).main == OnClosed(n, l);
    case TakeResponse(e) => assert ResponseStep(s, e).main == OnResponse(l, s.claimer.tasks, e);
    case StartOne => assert StartStep(s).main == StartNext(l, s.main.pc.pending);
    case Request => assert MainStep(n, s, Request).main == At(l, Selecting);
  }

  lemma OnlyStopTakes(n: nat, s: State, a: MainAct)
    requires MainEnabled(s, a) && a != TakeStop
    ensures MainStep(n, s, a).stop == s.stop && MainStep(n, s, a).hist.finishSeen == s.hist.finishSeen
  {
  }

  lemma StepKeepsFinish(n: nat, s: State, a: Label)
    requires FinishInv(s) && Enabled(n, s, a)
    ensures FinishInv(Apply(n, s, a))
  {
    match a
    case Main(m) => MainKeepsFinish(n, s, m);
    case Claimer(_) => assert Apply(n, s, a).main == s.main && Apply(n, s, a).stop == s.stop;
    case _ => assert Apply(n, s, a).main == s.main && Apply(n, s, a).hist == s.hist;
  }

  lemma {:induction false} EveryRunKeepsFinish(n: nat, s: State, run: seq<Label>, t: State)
    requires FinishInv(s) && Reaches(n, s, run, t)
    ensures FinishInv(t)
    decreases |run|
  {
    if run != [] {
      StepKeepsFinish(n, s, run[0]);
      EveryRunKeepsFinish(n, Apply(n, s, run[0]), run[1..], t);
    }
  }

  /** Once `stopCh` has delivered `true` it has nothing more to say but that it is closed; and
      as soon as it is closed, the loop can receive `false` and return at once. */
  lemma FinishIsFollowedByStop(n: nat, stop: Stop, run: seq<Label>, t: State)
    requires FreshStop(stop) && Reaches(n, Init(n, stop), run, t)
    requires t.hist.finishSeen && t.main.pc.Selecting?
    ensures Enabled(n, t, Main(TakeStop)) <==> t.stop.StopCh? && t.stop.closed
    ensures Enabled(n, t, Main(TakeStop)) ==> Apply(n, t, Main(TakeStop)).main.pc == Returned(Immediate)
  {
    EveryRunKeepsFinish(n, Init(n, stop), run, t);
  }

  // ------------------------------------------------------------- abandoned work

  /** `Run` returns with tasks running, or with completions unread, exactly when `stopCh`
      made it return while a slot was in use. */
  lemma AbandonedExactly(n: nat, stop: Stop, run: seq<Label>, t: State)
    requires Reaches(n, Init(n, stop), run, t)
    requires t.main.pc.Returned?
    ensures t.running != multiset{} || t.completed != [] <==>
              t.main.pc.why == Immediate && |t.main.loop.free| < n
  {
    InitInv(n, stop);
    EveryRunKeepsInv(n, Init(n, stop), run, t);
    Sizes(n, t);
  }

  /** `Run` has returned, and left tasks running or completions unread. */
  predicate Abandons(s: State) {
    s.main.pc.Returned? && (s.running != multiset{} || s.completed != [])
  }

  ghost predicate MayAbandon(n: nat, s: State) {
    exists run, t :: Reaches(n, s, run, t) && Abandons(t)
  }

  /** A send on `workReq` comes to its end, and moves nothing but the request. */
  lemma RequestEnds(n: nat, s: State) returns (run: seq<Label>, t: State)
    requires Token(s) && s.main.pc.Sending?
    ensures Reaches(n, s, run, t) && t.main == At(s.main.loop, Selecting)
    ensures t.running == s.running && t.completed == s.completed && t.stop == s.stop && t.hist == s.hist
  {
    if s.claimer.Parked? {
      t := Apply(n, s, Main(Request));
      Chain(n, s, Main(Request), [], t);
      run := [Main(Request)] + [];
    } else {
      var u := Apply(n, s, Claimer(Park));
      t := Apply(n, u, Main(Request));
      Chain(n, u, Main(Request), [], t);
      Chain(n, s, Claimer(Park), [Main(Request)], t);
      run := [Claimer(Park)] + [Main(Request)];
    }
  }

  /** At the select the channel can be closed, if it is not yet, and its zero value ends the run. */
  lemma StopEnds(n: nat, s: State) returns (run: seq<Label>, t: State)
    requires s.main.pc.Selecting? && s.stop.StopCh? && s.stop.buf == []
    ensures Reaches(n, s, run, t) && t.main.pc == Returned(Immediate)
    ensures t.running == s.running && t.completed == s.completed
  {
    if s.stop.closed {
      t := Apply(n, s, Main(TakeStop));
      Chain(n, s, Main(TakeStop), [], t);
      run := [Main(TakeStop)] + [];
    } else {
      var u := Apply(n, s, StopClose);
      t := Apply(n, u, Main(TakeStop));
      Chain(n, u, Main(TakeStop), [], t);
      Chain(n, s, StopClose, [Main(TakeStop)], t);
      run := [StopClose] + [Main(TakeStop)];
    }
  }

  lemma FinishCanAbandon(n: nat, s: State) returns (run: seq<Label>, t: State)
    requires Inv(n, s) && FinishInv(s) && s.hist.finishSeen && !s.main.pc.Returned?
    requires |s.main.loop.free| < n
    ensures Reaches(n, s, run, t) && Abandons(t)
  {
    var first, u := [], s;
    if s.main.pc.Sending? {
      first, u := RequestEnds(n, s);
    }
    var last;
    last, t := StopEnds(n, u);
    Concat(n, s, first, u, last, t);
    run := first + last;
    Sizes(n, s);
  }

  /** After `finish-tasks` the running tasks are safe exactly when there are none: as long as
      `Run` has not returned, some schedule makes it return and leave work behind if and only
      if a slot is in use. */
  lemma FinishAbandonsExactly(n: nat, stop: Stop, run: seq<Label>, t: State)
    requires FreshStop(stop) && Reaches(n, Init(n, stop), run, t)
    requires t.hist.finishSeen && !t.main.pc.Returned?
    ensures |t.main.loop.free| < n <==> MayAbandon(n, t)
  {
    InitInv(n, stop);
    EveryRunKeepsInv(n, Init(n, stop), run, t);
    EveryRunKeepsFinish(n, Init(n, stop), run, t);
    Sizes(n, t);
    if |t.main.loop.free| < n {
      var more, u := FinishCanAbandon(n, t);
    } else if MayAbandon(n, t) {
      var more, u :| Reaches(n, t, more, u) && Abandons(u);
      EveryRunKeepsInv(n, t, more, u);
      CompletionsCountDown(n, t, more, u);
      Sizes(n, u);
      assert false;
    }
  }

  lemma ReturnCause(n: nat, s: State, a: MainAct)
    requires MainEnabled(s, a) && MainStep(n, s, a).main.pc.Returned?
    ensures !a.StartOne? && !a.Request?
    ensures MainStep(n, s, a).main.pc.why ==
            match a
            case TakeCtx => ContextDone
            case TakeStop => Immediate
            case TakeCompleted => Drained
            case TakeClosed => ClaimerGone
            case _ => IdleShutdown
    ensures a == TakeStop ==> MainStep(n, s, a).main.loop.free == s.main.loop.free
  {
    match a
    case TakeResponse(_) =>
    case StartOne =>
    case _ =>
  }

  lemma AbandonsBySize(n: nat, s: State)
    requires Conserved(n, s) && s.main.pc.Returned?
    ensures Abandons(s) <==> |s.main.loop.free| < n
  {
    Sizes(n, s);
  }

  /** The receive that ends `Run` leaves work behind exactly when it is that of `false` from
      `stopCh`, with a slot in use at that moment. */
  lemma ReturnAbandonsExactly(n: nat, stop: Stop, run: seq<Label>, s: State, a: MainAct)
    requires Reaches(n, Init(n, stop), run, s) && Enabled(n, s, Main(a))
    requires Apply(n, s, Main(a)).main.pc.Returned?
    ensures Abandons(Apply(n, s, Main(a))) <==> a == TakeStop && |s.main.loop.free| < n
  {
    InitInv(n, stop);
    EveryRunKeepsInv(n, Init(n, stop), run, s);
    StepKeepsInv(n, s, Main(a));
    AbandonsBySize(n, Apply(n, s, Main(a)));
    ReturnCause(n, s, a);
  }

  /** With one slot, task 7 is claimed and started. */
  function StartRun(): seq<Label> {
    [Main(Request), Claimer(Obtain([7])), Main(TakeResponse(false)), Main(StartOne), Main(StartOne)]
  }

  function Busy7(): State {
    State(At(Loop([], true, false, false, true, true), Selecting), Returning, multiset{0}, [],
          false, false, StopCh([], false, false), History([7], [], [7], false))
  }

  /** The response with task 7 has been received. */
  function Claimed7(): State {
    State(At(Loop([0], false, true, false, true, true), Starting([7])), Returning, multiset{}, [],
          false, false, StopCh([], false, false), History([7], [], [], false))
  }

  lemma TaskSevenIsClaimed()
    ensures Reaches(1, Init(1, StopCh([], false, false)), StartRun()[..3], Claimed7())
  {
    var s0 := Init(1, StopCh([], false, false));
    assert Iota(1) == [0];
    var s1 := Apply(1, s0, Main(Request));
    var s2 := Apply(1, s1, Claimer(Obtain([7])));
    assert [] + [7] == [7];
    var last := [Main(TakeResponse(false))];
    Chain(1, s2, Main(TakeResponse(false)), [], Claimed7());
    Chain(1, s1, Claimer(Obtain([7])), last, Claimed7());
    Chain(1, s0, Main(Request), [Claimer(Obtain([7]))] + last, Claimed7());
    assert StartRun()[..3] == [Main(Request)] + ([Claimer(Obtain([7]))] + last);
  }

  lemma TaskSevenStarts()
    ensures Reaches(1, Init(1, StopCh([], false, false)), StartRun(), Busy7())
  {
    var s3 := Claimed7();
    var s4 := Apply(1, s3, Main(StartOne));
    assert s4.running == multiset{0} && s4.hist.started == [7];
    Chain(1, s4, Main(StartOne), [], Busy7());
    Chain(1, s3, Main(StartOne), [Main(StartOne)], Busy7());
    TaskSevenIsClaimed();
    Concat(1, Init(1, StopCh([], false, false)), StartRun()[..3], s3, [Main(StartOne)] + [Main(StartOne)], Busy7());
    assert StartRun() == StartRun()[..3] + ([Main(StartOne)] + [Main(StartOne)]);
  }

  /** Then the runner asks for a graceful end with `finish-tasks` set. The handler closes the
      channel right after the value, and the zero value that the closed channel yields makes
      `Run` return with the task it was asked to finish still running. */
  lemma FinishTasksIsNotHonoured() returns (run: seq<Label>, t: State)
    ensures Reaches(1, Init(1, StopCh([], false, false)), run, t)
    ensures t.hist.finishSeen && t.main.pc == Returned(Immediate) && t.running == multiset{0}
  {
    TaskSevenStarts();
    var tail;
    tail, t := StopAbandons(Busy7());
    Concat(1, Init(1, StopCh([], false, false)), StartRun(), Busy7(), tail, t);
    run := StartRun() + tail;
  }

  /** From any select with the channel still empty. */
  lemma StopAbandons(s: State) returns (run: seq<Label>, t: State)
    requires s.main.pc.Selecting? && s.stop == StopCh([], false, false)
    ensures Reaches(1, s, run, t)
    ensures t.hist.finishSeen && t.main.pc == Returned(Immediate) && t.running == s.running
  {
    var s6 := Apply(1, s, StopPut(true));
    var s7 := Apply(1, s6, Main(TakeStop));
    var s8 := Apply(1, s7, StopClose);
    t := Apply(1, s8, Main(TakeStop));
    Chain(1, s8, Main(TakeStop), [], t);
    Chain(1, s7, StopClose, [Main(TakeStop)], t);
    Chain(1, s6, Main(TakeStop), [StopClose, Main(TakeStop)], t);
    Chain(1, s, StopPut(true), [Main(TakeStop), StopClose, Main(TakeStop)], t);
    run := [StopPut(true)] + [Main(TakeStop), StopClose, Main(TakeStop)];
  }

  lemma {:induction false} Concat(n: nat, s: State, run: seq<Label>, t: State, more: seq<Label>, u: State)
    requires Reaches(n, s, run, t) && Reaches(n, t, more, u)
    ensures Reaches(n, s, run + more, u)
    decreases |run|
  {
    if run == [] {
      assert run + more == more;
    } else {
      assert (run + more)[1..] == run[1..] + more;
      Concat(n, Apply(n, s, run[0]), run[1..], t, more, u);
    }
  }

  lemma Chain(n: nat, s: State, a: Label, rest: seq<Label>, t: State)
    requires Enabled(n, s, a) && Honest(s, a) && Reaches(n, Apply(n, s, a), rest, t)
    ensures Reaches(n, s, [a] + rest, t)
  {
    assert ([a] + rest)[1..] == rest;
  }

  /** A response that is being delivered when `Run` returns is never received: the claimer
      stays blocked on `workRes`, and the tasks it claimed are neither started nor dropped. */
  lemma {:induction false} UnreadClaimIsStranded(n: nat, s: State, run: seq<Label>, t: State)
    requires s.main.pc.Returned? && s.claimer.Delivering? && Reaches(n, s, run, t)
    ensures t.claimer == s.claimer && t.hist == s.hist
    decreases |run|
  {
    if run != [] {
      UnreadClaimIsStranded(n, Apply(n, s, run[0]), run[1..], t);
    }
  }

  /** Any other claimer can come to its end by its own actions. */
  lemma ClaimerEnd(n: nat, s: State) returns (run: seq<Label>, t: State)
    requires Inv(n, s) && s.main.pc.Returned? && !s.claimer.Delivering?
    ensures Reaches(n, s, run, t) && t.claimer.Dead?
  {
    if s.claimer.Dead? {
      run, t := [], s;
    } else if s.claimer.Working? {
      run, t := [Claimer(GiveUp(true))], Apply(n, s, Claimer(GiveUp(true)));
    } else if s.claimer.Parked? {
      run, t := [Claimer(Exit)], Apply(n, s, Claimer(Exit));
    } else {
      var u := Apply(n, s, Claimer(Park));
      t := Apply(n, u, Claimer(Exit));
      Chain(n, u, Claimer(Exit), [], t);
      Chain(n, s, Claimer(Park), [Claimer(Exit)], t);
      run := [Claimer(Park)] + [Claimer(Exit)];
    }
  }

  /** After `Run` has returned, the claimer can still end exactly when it is not delivering. */
  lemma ClaimerEndsExactly(n: nat, s: State)
    requires Inv(n, s) && s.main.pc.Returned?
    ensures s.claimer.Delivering? ==> forall run, t :: Reaches(n, s, run, t) ==> !t.claimer.Dead?
    ensures !s.claimer.Delivering? ==> exists run, t :: Reaches(n, s, run, t) && t.claimer.Dead?
  {
    if s.claimer.Delivering? {
      forall run, t | Reaches(n, s, run, t) ensures !t.claimer.Dead? {
        UnreadClaimIsStranded(n, s, run, t);
      }
    } else {
      var run, t := ClaimerEnd(n, s);
      assert Reaches(n, s, run, t) && t.claimer.Dead?;
    }
  }

  /** A claimer that has no request when `Run` returns gets no other one, and it goes on to
      its end: an action of its own is possible until then. */
  lemma {:induction false} IdleClaimerIsSafe(n: nat, s: State, run: seq<Label>, t: State)
    requires s.main.pc.Returned? && !InFlight(s.claimer) && Reaches(n, s, run, t)
    ensures t.main.pc.Returned? && !InFlight(t.claimer)
    ensures t.claimer.Dead? || Enabled(n, t, Claimer(Park)) || Enabled(n, t, Claimer(Exit))
    decreases |run|
  {
    if run != [] {
      IdleClaimerIsSafe(n, Apply(n, s, run[0]), run[1..], t);
    }
  }

  /** A claim in progress takes no notice of the end of `Run`, because its call has no context. */
  lemma ClaimStillDelivers(n: nat, s: State) returns (run: seq<Label>, t: State)
    requires s.main.pc.Returned? && InFlight(s.claimer)
    ensures Reaches(n, s, run, t) && t.main.pc.Returned? && t.claimer.Delivering?
  {
    run, t := [], s;
    if s.claimer.Working? {
      t := Apply(n, s, Claimer(Obtain([])));
      Chain(n, s, Claimer(Obtain([])), [], t);
      run := [Claimer(Obtain([]))] + [];
    }
  }

  /** After `Run` has returned, the claimer is stranded at `workRes <- resp` on some schedule
      exactly when it is claiming or delivering at that moment. */
  lemma ClaimerStrandsExactly(n: nat, s: State)
    requires s.main.pc.Returned?
    ensures InFlight(s.claimer) <==> MayStrand(n, s)
  {
    if InFlight(s.claimer) {
      var run, t := ClaimStillDelivers(n, s);
      forall more, u | Reaches(n, t, more, u) ensures u.claimer == t.claimer && u.hist == t.hist {
        UnreadClaimIsStranded(n, t, more, u);
      }
      assert Stranded(n, t);
    } else if MayStrand(n, s) {
      var run, t :| Reaches(n, s, run, t) && t.claimer.Delivering? && Stranded(n, t);
      IdleClaimerIsSafe(n, s, run, t);
      assert false;
    }
  }

  ghost predicate MayStrand(n: nat, s: State) {
    exists run, t :: Reaches(n, s, run, t) && t.claimer.Delivering? && Stranded(n, t)
  }

  /** Nothing that can happen moves the claimer, or accounts for the tasks it has claimed. */
  ghost predicate Stranded(n: nat, s: State) {
    forall run, t :: Reaches(n, s, run, t) ==> t.claimer == s.claimer && t.hist == s.hist
  }

  /** Such a state is ordinary: the context ends while the first claim is under way, so `Run`
      returns with all slots free, and then the queue answers with a task. */
  lemma ClaimIsLost(n: nat, stop: Stop, task: Task) returns (run: seq<Label>, t: State)
    requires n > 0
    ensures Reaches(n, Init(n, stop), run, t) && t.main.pc == Returned(ContextDone)
    ensures t.claimer == Delivering(n, [task]) && Stranded(n, t)
  {
    var s0 := Init(n, stop);
    var s1 := Apply(n, s0, Main(Request));
    var s2 := Apply(n, s1, CtxCancel);
    var s3 := Apply(n, s2, Main(TakeCtx));
    t := Apply(n, s3, Claimer(Obtain([task])));
    Chain(n, s3, Claimer(Obtain([task])), [], t);
    Chain(n, s2, Main(TakeCtx), [Claimer(Obtain([task]))], t);
    Chain(n, s1, CtxCancel, [Main(TakeCtx), Claimer(Obtain([task]))], t);
    Chain(n, s0, Main(Request), [CtxCancel, Main(TakeCtx), Claimer(Obtain([task]))], t);
    run := [Main(Request)] + [CtxCancel, Main(TakeCtx), Claimer(Obtain([task]))];
    forall more, u | Reaches(n, t, more, u) ensures u.claimer == t.claimer && u.hist == t.hist {
      UnreadClaimIsStranded(n, t, more, u);
    }
  }
}
