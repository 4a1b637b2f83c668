/** Failures reach the gatherer, steps exclude each other, and every run delivers. */
module PipelineProofs {
  import opened Pipeline

  // ------------------------------------------------------------ the invariant

  predicate Sent(pc: StepPc) { pc.Closing? || pc.Done? }

  predicate ArtSent(pc: ArtPc) { pc.Sealing? || pc.Final? }

  /** The step has received nil from its dependency, or does not depend on what it received. */
  predicate Past(pc: StepPc) {
    pc.Preparing? || pc.Inside? || pc.Cleaning? ||
    ((pc.Ending? || pc.Closing? || pc.Done?) && pc.v == Nil)
  }

  /** A result channel gets one send, into free capacity, and is closed after it. */
  predicate Discipline(pending: bool, open: bool, v: Val, c: Chan) {
    if pending then c == Chan([], false)
    else c.closed == !open && (c.buf == [] || c.buf == [v])
  }

  predicate StepChan(a: Step) {
    if Sent(a.pc) then Discipline(false, a.pc.Closing?, a.pc.v, a.ch)
    else Discipline(true, true, Nil, a.ch)
  }

  predicate ArtChan(a: Art) {
    if ArtSent(a.pc) then Discipline(false, a.pc.Sealing?, a.pc.v, a.ch)
    else Discipline(true, true, Nil, a.ch)
  }

  /** Step `b` is the only reader of step `a`. */
  predicate Link(a: Step, b: Step) {
    && ((b.pc.Pulling? || b.pc.Waiting?) && Sent(a.pc) ==> a.ch.buf == [a.pc.v])
    && (Past(b.pc) ==> Sent(a.pc) && a.pc.v == Nil)
  }

  predicate StepsInv(steps: seq<Step>) {
    && (forall k :: 0 <= k < |steps| ==> StepChan(steps[k]))
    && (forall k :: 0 < k < |steps| ==> Link(steps[k - 1], steps[k]))
  }

  /** An upload ends with what it received, unless that was nil. */
  predicate ArtInv(a: Art) {
    && ArtChan(a)
    && (a.pc.Blocked? <==> a.got.NotYet?)
    && (a.pc.Uploading? ==> a.got == Got(Nil))
    && (!a.pc.Blocked? && !a.pc.Uploading? && a.got != Got(Nil) ==> a.got == Got(a.pc.v))
  }

  predicate GotNothing(a: Art) { a.got == NotYet || a.got == Got(Nil) }

  /** Upload `j` took the value `v`; every other one read nothing, or nil from the closed channel. */
  predicate TookIt(arts: seq<Art>, j: nat, v: Val) {
    && j < |arts| && arts[j].got == Got(v)
    && forall i :: 0 <= i < |arts| && i != j ==> GotNothing(arts[i])
  }

  predicate NoneTook(arts: seq<Art>) {
    forall i :: 0 <= i < |arts| ==> arts[i].got == NotYet
  }

  /** The last step and the uploads that share its channel. */
  ghost predicate FanOut(last: Step, arts: seq<Art>) {
    if !Sent(last.pc) || last.ch.buf != [] then NoneTook(arts)
    else arts != [] ==> exists j :: TookIt(arts, j, last.pc.v)
  }

  ghost predicate ArtsInv(s: State) {
    && (forall j :: 0 <= j < |s.arts| ==> ArtInv(s.arts[j]))
    && (if s.steps == [] then forall j :: 0 <= j < |s.arts| ==> GotNothing(s.arts[j])
        else FanOut(s.steps[|s.steps| - 1], s.arts))
  }

  /** A leaf has ended with `v`. */
  ghost predicate LeafEnded(s: State, v: Val) {
    if s.arts != [] then exists j :: 0 <= j < |s.arts| && ArtSent(s.arts[j].pc) && s.arts[j].pc.v == v
    else s.steps != [] && Sent(s.steps[|s.steps| - 1].pc) && s.steps[|s.steps| - 1].pc.v == v
  }

  /** The first `i` leaves have ended with nil and been read; the values of the others are unread. */
  predicate LeavesRead(s: State, i: nat) {
    if s.arts != [] then
      && i <= |s.arts|
      && (forall j :: 0 <= j < i ==> ArtSent(s.arts[j].pc) && s.arts[j].pc.v == Nil)
      && (forall j :: i <= j < |s.arts| && ArtSent(s.arts[j].pc) ==> s.arts[j].ch.buf == [s.arts[j].pc.v])
    else
      && i <= 1
      && (s.steps != [] ==>
            var last := s.steps[|s.steps| - 1];
            if i == 0 then Sent(last.pc) ==> last.ch.buf == [last.pc.v]
            else Sent(last.pc) && last.pc.v == Nil)
  }

  /** `next` still holds what the gatherer reported, unless the select has received it. */
  predicate Reported(s: State, v: Val) {
    if s.main.FromNext? then s.main.v == v
    else s.next.buf == if v == Nil then [] else [v]
  }

  ghost predicate GatherInv(s: State) {
    match s.gather
    case Reading(i) => LeavesRead(s, i) && s.next == Fresh() && !s.main.FromNext?
    case Reporting(v) => v != Nil && LeafEnded(s, v) && s.next == Fresh() && !s.main.FromNext?
    case Shutting(v) => v != Nil && LeafEnded(s, v) && !s.next.closed && Reported(s, v)
    case Gathered(v) =>
      s.next.closed && Reported(s, v) &&
      if v == Nil then LeavesRead(s, LeafCount(|s.arts|)) else LeafEnded(s, v)
  }

  predicate EdgesInv(s: State) {
    && (s.proxy.ProxyEnded? ==> s.exit == Fresh())
    && (s.proxy.ProxyRuns? ==> s.exit == Fresh())
    && (s.startClosed <==> !s.main.Wiring?)
  }

  ghost predicate Inv(s: State) {
    StepsInv(s.steps) && ArtsInv(s) && GatherInv(s) && EdgesInv(s)
  }

  lemma InitInv(n: nat, m: nat)
    ensures Inv(Init(n, m))
  {
  }

  lemma ReplaceStep(steps: seq<Step>, k: nat, x: Step)
    requires StepsInv(steps) && k < |steps| && StepChan(x)
    requires 0 < k ==> Link(steps[k - 1], x)
    requires k + 1 < |steps| ==> Link(x, steps[k + 1])
    ensures StepsInv(steps[k := x])
  {
  }

  lemma ReceiveKeepsSteps(s: State, k: nat)
    requires StepsInv(s.steps) && k < |s.steps| && StepEnabled(s, k, Receive)
    ensures StepsInv(StepMove(s, k, Receive).steps)
  {
    var v := Received(Look(s, StepDep(k)));
    var x := s.steps[k].(pc := if v == Nil then Preparing else Ending(v));
    ReplaceStep(s.steps, k, x);
    if k > 0 {
      var steps := s.steps[k := x];
      var y := steps[k - 1].(ch := AfterReceive(steps[k - 1].ch));
      assert Link(s.steps[k - 1], s.steps[k]);
      ReplaceStep(steps, k - 1, y);
      assert StepMove(s, k, Receive).steps == steps[k - 1 := y];
    }
  }

  lemma StepKeepsSteps(s: State, k: nat, a: StepAct)
    requires StepsInv(s.steps) && k < |s.steps| && StepEnabled(s, k, a)
    ensures StepsInv(StepMove(s, k, a).steps)
  {
    if a == Receive {
      ReceiveKeepsSteps(s, k);
    } else {
      var x := StepMove(s, k, a).steps[k];
      assert 0 < k ==> Link(s.steps[k - 1], s.steps[k]);
      assert k + 1 < |s.steps| ==> Link(s.steps[k], s.steps[k + 1]);
      assert StepChan(s.steps[k]);
      ReplaceStep(s.steps, k, x);
      assert StepMove(s, k, a).steps == s.steps[k := x];
    }
  }

  lemma StepKeepsArts(s: State, k: nat, a: StepAct)
    requires StepsInv(s.steps) && ArtsInv(s) && k < |s.steps| && StepEnabled(s, k, a)
    ensures ArtsInv(StepMove(s, k, a))
  {
  }

  /** Only the end of the last step's own result matters to the gatherer. */
  lemma StepKeepsLeaves(s: State, k: nat, a: StepAct, i: nat)
    requires StepsInv(s.steps) && LeavesRead(s, i) && k < |s.steps| && StepEnabled(s, k, a)
    ensures LeavesRead(StepMove(s, k, a), i)
  {
  }

  lemma StepKeepsEnded(s: State, k: nat, a: StepAct, v: Val)
    requires LeafEnded(s, v) && k < |s.steps| && StepEnabled(s, k, a)
    ensures LeafEnded(StepMove(s, k, a), v)
  {
  }

  /** A step touches nothing but the steps and the log. */
  lemma StepIsLocal(s: State, k: nat, a: StepAct)
    requires k < |s.steps| && StepEnabled(s, k, a)
    ensures var t := StepMove(s, k, a);
            && t.arts == s.arts && t.gather == s.gather && t.next == s.next && t.main == s.main
            && t.proxy == s.proxy && t.exit == s.exit && t.startClosed == s.startClosed
            && |t.steps| == |s.steps|
  {
  }

  /** What the gatherer knows carries over to a state in which the leaves are no worse. */
  lemma GatherCarriesOver(s: State, t: State)
    requires GatherInv(s) && t.gather == s.gather && t.next == s.next && t.main == s.main
    requires |t.arts| == |s.arts|
    requires forall i :: LeavesRead(s, i) ==> LeavesRead(t, i)
    requires forall v :: LeafEnded(s, v) ==> LeafEnded(t, v)
    ensures GatherInv(t)
  {
  }

  lemma StepKeepsGather(s: State, k: nat, a: StepAct)
    requires StepsInv(s.steps) && GatherInv(s) && k < |s.steps| && StepEnabled(s, k, a)
    ensures GatherInv(StepMove(s, k, a))
  {
    var t := StepMove(s, k, a);
    StepIsLocal(s, k, a);
    forall i | LeavesRead(s, i) ensures LeavesRead(t, i) {
      StepKeepsLeaves(s, k, a, i);
    }
    forall v | LeafEnded(s, v) ensures LeafEnded(t, v) {
      StepKeepsEnded(s, k, a, v);
    }
    GatherCarriesOver(s, t);
  }

  /** Ended uploads stay ended, with the same value, whatever their channels do. */
  lemma LeafStaysEnded(s: State, t: State, v: Val)
    requires LeafEnded(s, v) && |s.arts| == |t.arts|
    requires forall j :: 0 <= j < |s.arts| && ArtSent(s.arts[j].pc) ==>
               ArtSent(t.arts[j].pc) && t.arts[j].pc.v == s.arts[j].pc.v
    requires |s.steps| == |t.steps|
    requires s.arts == [] ==> forall k :: 0 <= k < |s.steps| ==> t.steps[k].pc == s.steps[k].pc
    ensures LeafEnded(t, v)
  {
    if s.arts != [] {
      var j :| 0 <= j < |s.arts| && ArtSent(s.arts[j].pc) && s.arts[j].pc.v == v;
      assert ArtSent(t.arts[j].pc) && t.arts[j].pc.v == v;
    }
  }

  /** Who took the value of the last step does not change with the uploads' other fields. */
  lemma TakerStays(last: Step, arts: seq<Art>, last': Step, arts': seq<Art>)
    requires FanOut(last, arts) && |arts| == |arts'| && last'.pc == last.pc && last'.ch.buf == last.ch.buf
    requires forall j :: 0 <= j < |arts| ==> arts'[j].got == arts[j].got
    ensures FanOut(last', arts')
  {
    if Sent(last.pc) && last.ch.buf == [] && arts != [] {
      var j :| TookIt(arts, j, last.pc.v);
      assert TookIt(arts', j, last.pc.v);
    }
  }

  lemma TakeKeepsArts(s: State, j: nat)
    requires StepsInv(s.steps) && ArtsInv(s) && j < |s.arts| && ArtEnabled(s, j, Take)
    ensures ArtsInv(ArtMove(s, j, Take))
  {
    var t := ArtMove(s, j, Take);
    if s.steps != [] {
      var n := |s.steps| - 1;
      var last := s.steps[n];
      assert StepChan(last);
      if last.ch.buf != [] {
        assert TookIt(t.arts, j, last.pc.v);
      } else {
        var i :| TookIt(s.arts, i, last.pc.v);
        assert TookIt(t.arts, i, last.pc.v);
      }
    }
  }

  lemma ArtKeepsArts(s: State, j: nat, a: ArtAct)
    requires StepsInv(s.steps) && ArtsInv(s) && j < |s.arts| && ArtEnabled(s, j, a)
    ensures ArtsInv(ArtMove(s, j, a))
  {
    if a == Take {
      TakeKeepsArts(s, j);
    } else if s.steps != [] {
      var last := s.steps[|s.steps| - 1];
      TakerStays(last, s.arts, last, ArtMove(s, j, a).arts);
    }
  }

  /** An upload touches nothing but itself, and the channel of the last step. */
  lemma ArtIsLocal(s: State, j: nat, a: ArtAct)
    requires j < |s.arts| && ArtEnabled(s, j, a)
    ensures var t := ArtMove(s, j, a);
            && t.gather == s.gather && t.next == s.next && t.main == s.main
            && |t.arts| == |s.arts| && |t.steps| == |s.steps|
            && (forall i :: 0 <= i < |s.arts| && i != j ==> t.arts[i] == s.arts[i])
            && (ArtSent(s.arts[j].pc) ==>
                  ArtSent(t.arts[j].pc) && t.arts[j].pc.v == s.arts[j].pc.v &&
                  t.arts[j].ch.buf == s.arts[j].ch.buf)
            && (ArtSent(t.arts[j].pc) && !ArtSent(s.arts[j].pc) ==> t.arts[j].ch.buf == [t.arts[j].pc.v])
  {
  }

  lemma ArtKeepsGather(s: State, j: nat, a: ArtAct)
    requires ArtsInv(s) && GatherInv(s) && j < |s.arts| && ArtEnabled(s, j, a)
    ensures GatherInv(ArtMove(s, j, a))
  {
    var t := ArtMove(s, j, a);
    ArtIsLocal(s, j, a);
    forall i | LeavesRead(s, i) ensures LeavesRead(t, i) {
      ArtKeepsLeaves(s, j, t, i);
    }
    forall v | LeafEnded(s, v) ensures LeafEnded(t, v) {
      LeafStaysEnded(s, t, v);
    }
    GatherCarriesOver(s, t);
  }

  lemma ArtKeepsLeaves(s: State, j: nat, t: State, i: nat)
    requires LeavesRead(s, i) && j < |s.arts| && |t.arts| == |s.arts|
    requires forall k :: 0 <= k < |s.arts| && k != j ==> t.arts[k] == s.arts[k]
    requires ArtSent(s.arts[j].pc) ==>
               ArtSent(t.arts[j].pc) && t.arts[j].pc.v == s.arts[j].pc.v &&
               t.arts[j].ch.buf == s.arts[j].ch.buf
    requires ArtSent(t.arts[j].pc) && !ArtSent(s.arts[j].pc) ==> t.arts[j].ch.buf == [t.arts[j].pc.v]
    ensures LeavesRead(t, i)
  {
  }

  lemma ArtKeepsSteps(s: State, j: nat, a: ArtAct)
    requires StepsInv(s.steps) && j < |s.arts| && ArtEnabled(s, j, a)
    ensures StepsInv(ArtMove(s, j, a).steps)
  {
    if a == Take && s.steps != [] {
      var n := |s.steps| - 1;
      ReplaceStep(s.steps, n, ArtMove(s, j, a).steps[n]);
    }
  }

  lemma ReadKeepsSteps(s: State)
    requires StepsInv(s.steps) && GatherEnabled(s, ReadLeaf)
    ensures StepsInv(GatherMove(s, ReadLeaf).steps)
  {
    if s.arts == [] && s.steps != [] {
      var n := |s.steps| - 1;
      ReplaceStep(s.steps, n, GatherMove(s, ReadLeaf).steps[n]);
    }
  }

  lemma ReadKeepsArts(s: State)
    requires ArtsInv(s) && GatherEnabled(s, ReadLeaf)
    ensures ArtsInv(GatherMove(s, ReadLeaf))
  {
    if s.arts != [] && s.steps != [] {
      var last := s.steps[|s.steps| - 1];
      TakerStays(last, s.arts, last, GatherMove(s, ReadLeaf).arts);
    }
  }

  lemma ReadKeepsGather(s: State)
    requires StepsInv(s.steps) && ArtsInv(s) && GatherInv(s) && GatherEnabled(s, ReadLeaf)
    ensures GatherInv(GatherMove(s, ReadLeaf))
  {
    var t := GatherMove(s, ReadLeaf);
    var i := s.gather.i;
    if s.arts != [] {
      assert ArtChan(s.arts[i]);
      assert ArtSent(t.arts[i].pc) && t.arts[i].pc.v == Received(s.arts[i].ch);
    } else if s.steps != [] {
      assert StepChan(s.steps[|s.steps| - 1]);
    }
  }

  lemma GatherKeepsInv(s: State, a: GatherAct)
    requires Inv(s) && GatherEnabled(s, a)
    ensures Inv(GatherMove(s, a))
  {
    if a == ReadLeaf {
      ReadKeepsSteps(s);
      ReadKeepsArts(s);
      ReadKeepsGather(s);
    }
  }

  lemma StepKeepsEdges(s: State, a: Label)
    requires EdgesInv(s) && Enabled(s, a)
    ensures EdgesInv(Apply(s, a))
  {
    match a
    case OfStep(k, act) =>
    case OfArt(j, act) =>
    case OfGather(act) =>
    case _ =>
  }

  lemma EdgeKeepsInv(s: State, a: Label)
    requires StepsInv(s.steps) && ArtsInv(s) && GatherInv(s) && Enabled(s, a)
    requires !a.OfStep? && !a.OfArt? && !a.OfGather?
    ensures StepsInv(Apply(s, a).steps) && ArtsInv(Apply(s, a)) && GatherInv(Apply(s, a))
  {
    var t := Apply(s, a);
    if !s.gather.Reading? && s.gather.v != Nil {
      LeafStaysEnded(s, t, s.gather.v);
    }
  }

  lemma StepKeepsInv(s: State, a: Label)
    requires Inv(s) && Enabled(s, a)
    ensures Inv(Apply(s, a))
  {
    StepKeepsEdges(s, a);
    match a
    case OfStep(k, act) =>
      StepKeepsSteps(s, k, act);
      StepKeepsArts(s, k, act);
      StepKeepsGather(s, k, act);
    case OfArt(j, act) =>
      ArtKeepsSteps(s, j, act);
      ArtKeepsArts(s, j, act);
      ArtKeepsGather(s, j, act);
    case OfGather(act) => GatherKeepsInv(s, act);
    case _ => EdgeKeepsInv(s, a);
  }

  // --------------------------------------------------- order of the containers

  function EventAt(i: nat): Event {
    if i % 2 == 0 then Created(i / 2) else Removed(i / 2)
  }

  predicate Begins(pc: StepPc) { pc.Pulling? || pc.Waiting? || pc.Preparing? }

  predicate HasContainer(pc: StepPc) { pc.Inside? || pc.Cleaning? }

  predicate Succeeded(pc: StepPc) { (pc.Ending? || Sent(pc)) && pc.v == Nil }

  predicate LogInv(s: State) {
    && (forall i :: 0 <= i < |s.log| ==> s.log[i] == EventAt(i))
    && (forall k :: 0 <= k < |s.steps| && Succeeded(s.steps[k].pc) ==> |s.log| >= 2 * k + 2)
    && (forall k :: 0 <= k < |s.steps| ==> (HasContainer(s.steps[k].pc) <==> |s.log| == 2 * k + 1))
    && (forall k :: 0 <= k < |s.steps| && Begins(s.steps[k].pc) ==> |s.log| <= 2 * k)
    && |s.log| <= 2 * |s.steps|
  }

  /** A step that got past its wait has only successful steps before it. */
  lemma {:induction false} EarlierSucceeded(steps: seq<Step>, k: nat, i: nat)
    requires StepsInv(steps) && i < k < |steps| && Past(steps[k].pc)
    ensures Sent(steps[i].pc) && steps[i].pc.v == Nil
  {
    assert Link(steps[k - 1], steps[k]);
    if i < k - 1 {
      EarlierSucceeded(steps, k - 1, i);
    }
  }

  lemma CreateKeepsLog(s: State, k: nat)
    requires StepsInv(s.steps) && LogInv(s) && k < |s.steps| && StepEnabled(s, k, Create(Nil))
    ensures LogInv(StepMove(s, k, Create(Nil)))
  {
    forall i | 0 <= i < k
      ensures Sent(s.steps[i].pc) && s.steps[i].pc.v == Nil
    {
      EarlierSucceeded(s.steps, k, i);
    }
    assert k > 0 ==> Succeeded(s.steps[k - 1].pc);
    assert |s.log| == 2 * k;
  }

  lemma RemoveKeepsLog(s: State, k: nat)
    requires LogInv(s) && k < |s.steps| && StepEnabled(s, k, Remove)
    ensures LogInv(StepMove(s, k, Remove))
  {
    assert |s.log| == 2 * k + 1;
  }

  lemma MessageKeepsLog(s: State, k: nat, a: StepAct)
    requires LogInv(s) && k < |s.steps| && StepEnabled(s, k, a) && (a.Receive? || a.Send? || a.Close?)
    ensures LogInv(StepMove(s, k, a))
  {
  }

  lemma StepKeepsLog(s: State, k: nat, a: StepAct)
    requires StepsInv(s.steps) && LogInv(s) && k < |s.steps| && StepEnabled(s, k, a)
    ensures LogInv(StepMove(s, k, a))
  {
    if a == Create(Nil) {
      CreateKeepsLog(s, k);
    } else if a == Remove {
      RemoveKeepsLog(s, k);
    } else if a.Receive? || a.Send? || a.Close? {
      MessageKeepsLog(s, k, a);
    }
  }

  lemma SamePcKeepsLog(s: State, t: State)
    requires LogInv(s) && t.log == s.log && |t.steps| == |s.steps|
    requires forall k :: 0 <= k < |s.steps| ==> t.steps[k].pc == s.steps[k].pc
    ensures LogInv(t)
  {
  }

  lemma OtherKeepsPcs(s: State, a: Label)
    requires Enabled(s, a) && !a.OfStep?
    ensures var t := Apply(s, a); t.log == s.log && |t.steps| == |s.steps|
    ensures forall k :: 0 <= k < |s.steps| ==> Apply(s, a).steps[k].pc == s.steps[k].pc
  {
    match a
    case OfArt(j, act) =>
    case OfGather(act) =>
    case _ =>
  }

  lemma ApplyKeepsLog(s: State, a: Label)
    requires StepsInv(s.steps) && LogInv(s) && Enabled(s, a)
    ensures LogInv(Apply(s, a))
  {
    if a.OfStep? {
      StepKeepsLog(s, a.k, a.step);
    } else {
      OtherKeepsPcs(s, a);
      SamePcKeepsLog(s, Apply(s, a));
    }
  }

  lemma ApplyKeepsSizes(s: State, a: Label)
    requires Enabled(s, a)
    ensures |Apply(s, a).steps| == |s.steps| && |Apply(s, a).arts| == |s.arts|
  {
  }

  ghost predicate Good(n: nat, m: nat, s: State) {
    |s.steps| == n && |s.arts| == m && Inv(s) && LogInv(s)
  }

  lemma GoodStep(n: nat, m: nat, s: State, a: Label)
    requires Good(n, m, s) && Enabled(s, a)
    ensures Good(n, m, Apply(s, a))
  {
    StepKeepsInv(s, a);
    ApplyKeepsLog(s, a);
    ApplyKeepsSizes(s, a);
  }

  lemma {:induction false} EveryRunIsGood(n: nat, m: nat, s: State, run: seq<Label>, t: State)
    requires Good(n, m, s) && Reaches(s, run, t)
    ensures Good(n, m, t)
    decreases |run|
  {
    if run != [] {
      GoodStep(n, m, s, run[0]);
      EveryRunIsGood(n, m, Apply(s, run[0]), run[1..], t);
    }
  }

  lemma ReachableIsGood(n: nat, m: nat, run: seq<Label>, t: State)
    requires Reaches(Init(n, m), run, t)
    ensures Good(n, m, t)
  {
    InitInv(n, m);
    EveryRunIsGood(n, m, Init(n, m), run, t);
  }

  // ---------------------------------------------------------------- the theorems

  predicate AllSucceeded(s: State) {
    && (forall k :: 0 <= k < |s.steps| ==> Sent(s.steps[k].pc) && s.steps[k].pc.v == Nil)
    && (forall j :: 0 <= j < |s.arts| ==> ArtSent(s.arts[j].pc) && s.arts[j].pc.v == Nil)
  }

  /** When every upload ended with nil, so did the last step, although its value went to
      only one of them. */
  lemma LastStepSucceeded(s: State)
    requires StepsInv(s.steps) && ArtsInv(s) && s.steps != []
    requires if s.arts != [] then forall j :: 0 <= j < |s.arts| ==> ArtSent(s.arts[j].pc) && s.arts[j].pc.v == Nil
             else Sent(s.steps[|s.steps| - 1].pc) && s.steps[|s.steps| - 1].pc.v == Nil
    ensures Sent(s.steps[|s.steps| - 1].pc) && s.steps[|s.steps| - 1].pc.v == Nil
  {
    if s.arts != [] {
      var last := s.steps[|s.steps| - 1];
      assert ArtInv(s.arts[0]);
      assert !NoneTook(s.arts);
      var j: nat :| TookIt(s.arts, j, last.pc.v);
      assert ArtInv(s.arts[j]);
    }
  }

  lemma LeavesMeanAll(s: State)
    requires StepsInv(s.steps) && ArtsInv(s) && LeavesRead(s, LeafCount(|s.arts|))
    ensures AllSucceeded(s)
  {
    if s.steps != [] {
      var n := |s.steps| - 1;
      LastStepSucceeded(s);
      forall k | 0 <= k < n
        ensures Sent(s.steps[k].pc) && s.steps[k].pc.v == Nil
      {
        EarlierSucceeded(s.steps, n, k);
      }
    }
  }

  /** The value received from `nextCh` is nil exactly when every step and every upload ended
      with nil, and otherwise it is the error with which some leaf ended. */
  lemma FailuresAreConserved(n: nat, m: nat, run: seq<Label>, t: State)
    requires Reaches(Init(n, m), run, t) && t.main.FromNext?
    ensures t.main.v == Nil <==> AllSucceeded(t)
    ensures t.main.v != Nil ==> LeafEnded(t, t.main.v)
  {
    ReachableIsGood(n, m, run, t);
    VerdictIsRight(t);
  }

  lemma VerdictIsRight(t: State)
    requires Inv(t) && t.main.FromNext?
    ensures t.main.v == Nil <==> AllSucceeded(t)
    ensures t.main.v != Nil ==> LeafEnded(t, t.main.v)
  {
    if t.main.v == Nil {
      LeavesMeanAll(t);
    }
  }

  predicate OthersReadNil(arts: seq<Art>, j: nat) {
    forall i :: 0 <= i < |arts| && i != j ==> arts[i].got == Got(Nil)
  }

  /** The error of the last step reaches exactly one upload; all the others read nil from the
      closed channel, and are free to upload. */
  lemma ErrorReachesOneUpload(n: nat, m: nat, run: seq<Label>, t: State)
    requires Reaches(Init(n, m), run, t) && t.steps != [] && t.arts != []
    requires Sent(t.steps[|t.steps| - 1].pc) && t.steps[|t.steps| - 1].pc.v != Nil
    requires forall j :: 0 <= j < |t.arts| ==> !t.arts[j].pc.Blocked?
    ensures exists j: nat :: TookIt(t.arts, j, t.steps[|t.steps| - 1].pc.v) && OthersReadNil(t.arts, j)
  {
    ReachableIsGood(n, m, run, t);
    assert ArtInv(t.arts[0]);
    assert !NoneTook(t.arts);
    var j: nat :| TookIt(t.arts, j, t.steps[|t.steps| - 1].pc.v);
    forall i | 0 <= i < |t.arts| && i != j
      ensures t.arts[i].got == Got(Nil)
    {
      assert ArtInv(t.arts[i]) && GotNothing(t.arts[i]);
    }
    assert OthersReadNil(t.arts, j);
  }

  /** A step past its wait has only steps before it that ended with nil, after their cleanup. */
  predicate AfterOthers(s: State) {
    forall i, k :: 0 <= i < k < |s.steps| && Past(s.steps[k].pc) ==>
      Sent(s.steps[i].pc) && s.steps[i].pc.v == Nil && |s.log| >= 2 * i + 2
  }

  predicate OneContainer(steps: seq<Step>) {
    forall i, k :: 0 <= i < k < |steps| && HasContainer(steps[i].pc) ==> !HasContainer(steps[k].pc)
  }

  lemma StepsFollow(s: State)
    requires StepsInv(s.steps) && LogInv(s)
    ensures AfterOthers(s)
  {
    forall i, k | 0 <= i < k < |s.steps| && Past(s.steps[k].pc)
      ensures Sent(s.steps[i].pc) && s.steps[i].pc.v == Nil && |s.log| >= 2 * i + 2
    {
      EarlierSucceeded(s.steps, k, i);
      assert Succeeded(s.steps[i].pc);
    }
  }

  lemma ContainersExclude(s: State)
    requires LogInv(s)
    ensures OneContainer(s.steps)
  {
    forall i, k | 0 <= i < k < |s.steps| && HasContainer(s.steps[i].pc)
      ensures !HasContainer(s.steps[k].pc)
    {
      assert |s.log| == 2 * i + 1;
    }
  }

  /** Containers come one at a time and in order: the creations and removals so far are a
      prefix of create 0, remove 0, create 1, remove 1, and so on. A step past its wait has
      only steps before it that ended with nil, and at most one step has a container. */
  lemma StepsTakeTurns(n: nat, m: nat, run: seq<Label>, t: State)
    requires Reaches(Init(n, m), run, t)
    ensures |t.steps| == n && |t.log| <= 2 * n && forall i :: 0 <= i < |t.log| ==> t.log[i] == EventAt(i)
    ensures AfterOthers(t) && OneContainer(t.steps)
  {
    ReachableIsGood(n, m, run, t);
    StepsFollow(t);
    ContainersExclude(t);
  }

  // -------------------------------------------------------------------- progress

  function StepWork(pc: StepPc): nat {
    match pc
    case Pulling => 7
    case Waiting => 6
    case Preparing => 5
    case Inside => 4
    case Cleaning(_) => 3
    case Ending(_) => 2
    case Closing(_) => 1
    case Done(_) => 0
  }

  function ArtWork(pc: ArtPc): nat {
    match pc
    case Blocked => 4
    case Uploading => 3
    case Ended(_) => 2
    case Sealing(_) => 1
    case Final(_) => 0
  }

  function StepsWork(steps: seq<Step>): nat {
    if steps == [] then 0 else StepsWork(steps[..|steps| - 1]) + StepWork(steps[|steps| - 1].pc)
  }

  function ArtsWork(arts: seq<Art>): nat {
    if arts == [] then 0 else ArtsWork(arts[..|arts| - 1]) + ArtWork(arts[|arts| - 1].pc)
  }

  lemma {:induction false} StepsWorkUpdate(steps: seq<Step>, k: nat, x: Step)
    requires k < |steps|
    ensures StepsWork(steps[k := x]) == StepsWork(steps) - StepWork(steps[k].pc) + StepWork(x.pc)
  {
    var n := |steps| - 1;
    if k == n {
      assert steps[k := x][..n] == steps[..n];
    } else {
      assert steps[k := x][..n] == steps[..n][k := x];
      StepsWorkUpdate(steps[..n], k, x);
    }
  }

  lemma {:induction false} ArtsWorkUpdate(arts: seq<Art>, j: nat, x: Art)
    requires j < |arts|
    ensures ArtsWork(arts[j := x]) == ArtsWork(arts) - ArtWork(arts[j].pc) + ArtWork(x.pc)
  {
    var m := |arts| - 1;
    if j == m {
      assert arts[j := x][..m] == arts[..m];
    } else {
      assert arts[j := x][..m] == arts[..m][j := x];
      ArtsWorkUpdate(arts[..m], j, x);
    }
  }

  lemma {:induction false} WorkBounds(steps: seq<Step>, arts: seq<Art>)
    ensures StepsWork(steps) <= 7 * |steps| && ArtsWork(arts) <= 4 * |arts|
    decreases |steps| + |arts|
  {
    if steps != [] {
      WorkBounds(steps[..|steps| - 1], arts);
    } else if arts != [] {
      WorkBounds(steps, arts[..|arts| - 1]);
    }
  }

  function EdgeWork(s: State): nat {
    (match s.gather
     case Reading(i) => (if i <= LeafCount(|s.arts|) then LeafCount(|s.arts|) - i else 0) + 3
     case Reporting(_) => 2
     case Shutting(_) => 1
     case Gathered(_) => 0) +
    (if s.proxy.ProxyRuns? then 2 else if s.proxy.ProxyEnded? then 1 else 0) +
    (if s.main.Wiring? then 2 else if s.main.Selecting? then 1 else 0)
  }

  function Work(s: State): nat { StepsWork(s.steps) + ArtsWork(s.arts) + EdgeWork(s) }

  /** A receive touches only the channel, so it does not change the work of its sender. */
  lemma ConsumeKeepsWork(s: State, c: Source)
    requires ValidSource(s, c) && CanReceive(Look(s, c))
    ensures var t := Consume(s, c); StepsWork(t.steps) == StepsWork(s.steps) && ArtsWork(t.arts) == ArtsWork(s.arts)
  {
    match c
    case Start =>
    case StepOut(k) => StepsWorkUpdate(s.steps, k, Consume(s, c).steps[k]);
    case ArtOut(j) => ArtsWorkUpdate(s.arts, j, Consume(s, c).arts[j]);
  }

  lemma ReceiveDecreases(s: State, k: nat)
    requires k < |s.steps| && StepEnabled(s, k, Receive)
    ensures var t := StepMove(s, k, Receive);
            StepsWork(t.steps) < StepsWork(s.steps) && t.arts == s.arts && EdgeWork(t) == EdgeWork(s)
  {
    var t := StepMove(s, k, Receive);
    var u := Consume(s, StepDep(k));
    ConsumeKeepsWork(s, StepDep(k));
    StepsWorkUpdate(u.steps, k, t.steps[k]);
    assert t.steps == u.steps[k := t.steps[k]];
  }

  lemma StepDecreases(s: State, k: nat, a: StepAct)
    requires k < |s.steps| && StepEnabled(s, k, a)
    ensures var t := StepMove(s, k, a);
            StepsWork(t.steps) < StepsWork(s.steps) && t.arts == s.arts && EdgeWork(t) == EdgeWork(s)
  {
    if a == Receive {
      ReceiveDecreases(s, k);
    } else {
      var t := StepMove(s, k, a);
      StepsWorkUpdate(s.steps, k, t.steps[k]);
      assert t.steps == s.steps[k := t.steps[k]];
    }
  }

  lemma ArtDecreases(s: State, j: nat, a: ArtAct)
    requires j < |s.arts| && ArtEnabled(s, j, a)
    ensures var t := ArtMove(s, j, a);
            StepsWork(t.steps) == StepsWork(s.steps) && ArtsWork(t.arts) < ArtsWork(s.arts) &&
            EdgeWork(t) == EdgeWork(s)
  {
    var t := ArtMove(s, j, a);
    if a == Take {
      ConsumeKeepsWork(s, ArtDep(|s.steps|));
    }
    ArtsWorkUpdate(s.arts, j, t.arts[j]);
    assert t.arts == s.arts[j := t.arts[j]];
  }

  lemma GatherDecreases(s: State, a: GatherAct)
    requires GatherEnabled(s, a)
    ensures Work(GatherMove(s, a)) < Work(s)
  {
    if a == ReadLeaf {
      ConsumeKeepsWork(s, Leaf(|s.steps|, |s.arts|, s.gather.i));
    }
  }

  lemma EveryActionDecreases(s: State, a: Label)
    requires Enabled(s, a)
    ensures Work(Apply(s, a)) < Work(s)
  {
    match a
    case OfStep(k, act) => StepDecreases(s, k, act);
    case OfArt(j, act) => ArtDecreases(s, j, act);
    case OfGather(act) => GatherDecreases(s, act);
    case _ =>
  }

  lemma {:induction false} RunsAreShort(s: State, run: seq<Label>, t: State)
    requires Reaches(s, run, t)
    ensures |run| + Work(t) <= Work(s)
    decreases |run|
  {
    if run != [] {
      EveryActionDecreases(s, run[0]);
      RunsAreShort(Apply(s, run[0]), run[1..], t);
    }
  }

  /** Ranks: a goroutine waits only for the start, or for goroutines before it in the chain
      steps, uploads, gatherer. So the first one that is not finished can act. */
  lemma UnfinishedStepActs(s: State, k: nat)
    requires StepsInv(s.steps) && s.startClosed && k < |s.steps| && !s.steps[k].pc.Done?
    requires forall i :: 0 <= i < k ==> s.steps[i].pc.Done?
    ensures exists a :: Enabled(s, OfStep(k, a))
  {
    assert StepChan(s.steps[k]);
    assert k > 0 ==> StepChan(s.steps[k - 1]);
    var a :=
      match s.steps[k].pc
      case Pulling => Pull(Nil)
      case Waiting => Receive
      case Preparing => Create(Nil)
      case Inside => Run(0, Nil)
      case Cleaning(_) => Remove
      case Ending(_) => Send
      case _ => Close;
    assert Enabled(s, OfStep(k, a));
  }

  lemma UnfinishedArtActs(s: State, j: nat)
    requires Inv(s) && s.startClosed && j < |s.arts| && !s.arts[j].pc.Final?
    requires forall i :: 0 <= i < |s.steps| ==> s.steps[i].pc.Done?
    ensures exists a :: Enabled(s, OfArt(j, a))
  {
    assert ArtInv(s.arts[j]);
    assert s.steps != [] ==> StepChan(s.steps[|s.steps| - 1]);
    var a :=
      match s.arts[j].pc
      case Blocked => Take
      case Uploading => Upload(Nil)
      case Ended(_) => Put
      case _ => Seal;
    assert Enabled(s, OfArt(j, a));
  }

  lemma UnfinishedGatherActs(s: State)
    requires Inv(s) && s.startClosed && !s.gather.Gathered?
    requires forall i :: 0 <= i < |s.steps| ==> s.steps[i].pc.Done?
    requires forall j :: 0 <= j < |s.arts| ==> s.arts[j].pc.Final?
    ensures exists a :: Enabled(s, OfGather(a))
  {
    assert s.steps != [] ==> StepChan(s.steps[|s.steps| - 1]);
    assert s.arts != [] && s.gather.Reading? && s.gather.i < |s.arts| ==> ArtInv(s.arts[s.gather.i]);
    var a :=
      match s.gather
      case Reading(i) => if i < LeafCount(|s.arts|) then ReadLeaf else Finish
      case Reporting(_) => Report
      case _ => Finish;
    assert Enabled(s, OfGather(a));
  }

  predicate Quiet(s: State) {
    && (forall k :: 0 <= k < |s.steps| ==> s.steps[k].pc.Done?)
    && (forall j :: 0 <= j < |s.arts| ==> s.arts[j].pc.Final?)
    && s.gather.Gathered? && s.proxy.ProxySent? && (s.main.FromNext? || s.main.FromExit?)
  }

  lemma StuckIsQuiet(s: State)
    requires Inv(s) && forall a :: !Enabled(s, a)
    ensures Quiet(s)
  {
    assert !Enabled(s, CloseStart);
    if k :| 0 <= k < |s.steps| && !s.steps[k].pc.Done? {
      var i := FirstUnfinished(s.steps, k);
      UnfinishedStepActs(s, i);
      assert false;
    }
    if j :| 0 <= j < |s.arts| && !s.arts[j].pc.Final? {
      UnfinishedArtActs(s, j);
      assert false;
    }
    if !s.gather.Gathered? {
      UnfinishedGatherActs(s);
      assert false;
    }
    assert !Enabled(s, ProxyExit(Nil)) && !Enabled(s, ProxySend) && !Enabled(s, TakeNext);
  }

  lemma {:induction false} FirstUnfinished(steps: seq<Step>, k: nat) returns (i: nat)
    requires k < |steps| && !steps[k].pc.Done?
    ensures i < |steps| && !steps[i].pc.Done? && forall h :: 0 <= h < i ==> steps[h].pc.Done?
    decreases k
  {
    if h :| 0 <= h < k && !steps[h].pc.Done? {
      i := FirstUnfinished(steps, h);
    } else {
      i := k;
    }
  }

  /** Every schedule has at most `7n + 5m + 8` actions, and one that cannot be continued has
      delivered: all goroutines are finished, none stuck at a send, whichever of the proxy
      and the gatherer the select took. */
  lemma EveryRunDelivers(n: nat, m: nat, run: seq<Label>, t: State)
    requires Reaches(Init(n, m), run, t)
    ensures |run| <= 7 * n + 5 * m + 8
    ensures (forall a :: !Enabled(t, a)) ==> Quiet(t)
  {
    ReachableIsGood(n, m, run, t);
    RunsAreShort(Init(n, m), run, t);
    WorkBounds(Init(n, m).steps, Init(n, m).arts);
    if forall a :: !Enabled(t, a) {
      StuckIsQuiet(t);
    }
  }

  // ------------------------------------------------ runStep itself, as one thread

  /** What the calls of one step return: the pull (nil if it is skipped), the dependency, the
      secrets of the environment, the creation, and the run of the container. */
  datatype Calls = Calls(pull: Val, dep: Val, secrets: seq<Val>, create: Val, exitCode: int, run: Val)

  function FirstError(vs: seq<Val>): Val {
    if vs == [] then Nil else if vs[0] != Nil then vs[0] else FirstError(vs[1..])
  }

  function RunResult(c: Calls): Val {
    if c.exitCode != 0 then Failed(Plain(c.exitCode)) else c.run
  }

  /** With what a step at `pc` will end. */
  function EndsWith(pc: StepPc, c: Calls): Val
    decreases StepWork(pc)
  {
    match pc
    case Pulling => if c.pull != Nil then c.pull else EndsWith(Waiting, c)
    case Waiting => if c.dep != Nil then c.dep else EndsWith(Preparing, c)
    case Preparing =>
      if FirstError(c.secrets) != Nil then FirstError(c.secrets)
      else if c.create != Nil then c.create
      else RunResult(c)
    case Inside => RunResult(c)
    case _ => pc.v
  }

  /** The container events still to come. */
  function EventsToCome(pc: StepPc, k: nat, c: Calls): seq<Event>
    decreases StepWork(pc)
  {
    match pc
    case Pulling => if c.pull != Nil then [] else EventsToCome(Waiting, k, c)
    case Waiting => if c.dep != Nil then [] else EventsToCome(Preparing, k, c)
    case Preparing =>
      if FirstError(c.secrets) != Nil || c.create != Nil then [] else [Created(k), Removed(k)]
    case Inside => [Removed(k)]
    case Cleaning(_) => [Removed(k)]
    case _ => []
  }

  /** From the pull to the creation. */
  lemma EarlyReturns(k: nat, c: Calls)
    ensures EndsWith(Pulling, c) ==
            if c.pull != Nil then c.pull
            else if c.dep != Nil then c.dep
            else EndsWith(Preparing, c)
    ensures EventsToCome(Pulling, k, c) ==
            if c.pull != Nil || c.dep != Nil then [] else EventsToCome(Preparing, k, c)
  {
  }

  lemma {:induction false} FirstErrorExactly(vs: seq<Val>)
    ensures FirstError(vs) == Nil <==> forall i :: 0 <= i < |vs| ==> vs[i] == Nil
  {
    if vs != [] && vs[0] == Nil {
      FirstErrorExactly(vs[1..]);
      assert forall i :: 0 < i < |vs| ==> vs[i] == vs[1..][i - 1];
    }
  }

  /** The body of runStep: its early returns, and its deferred calls in reverse order. */
  method RunStep(k: nat, skipPull: bool, c: Calls) returns (sent: Val, log: seq<Event>)
    requires skipPull ==> c.pull == Nil
    ensures sent == EndsWith(Pulling, c) && log == EventsToCome(Pulling, k, c)
    ensures sent == Nil <==>
              c.pull == Nil && c.dep == Nil && (forall i :: 0 <= i < |c.secrets| ==> c.secrets[i] == Nil) &&
              c.create == Nil && c.exitCode == 0 && c.run == Nil
  {
    EarlyReturns(k, c);
    FirstErrorExactly(c.secrets);
    var err := Nil;
    log := [];
    if !skipPull {
      err := c.pull;
      if err != Nil {
        return err, log;
      }
    }
    err := c.dep;
    if err != Nil {
      return err, log;
    }
    var idx := 0;
    while idx < |c.secrets|
      invariant 0 <= idx <= |c.secrets|
      invariant FirstError(c.secrets[idx..]) == FirstError(c.secrets)
    {
      err := c.secrets[idx];
      assert c.secrets[idx..][0] == err && c.secrets[idx..][1..] == c.secrets[idx + 1..];
      if err != Nil {
        return err, log;
      }
      idx := idx + 1;
    }
    err := c.create;
    if err != Nil {
      return err, log;
    }
    log := log + [Created(k)];
    err := c.run;
    if c.exitCode != 0 {
      err := Failed(Plain(c.exitCode));
    }
    log := log + [Removed(k)];
    sent := err;
  }

  /** The next action of a step whose calls return what `c` says. */
  function NextAct(pc: StepPc, c: Calls): StepAct
    requires !pc.Done?
  {
    match pc
    case Pulling => Pull(c.pull)
    case Waiting => Receive
    case Preparing =>
      if FirstError(c.secrets).Failed? then EnvFails(FirstError(c.secrets).error) else Create(c.create)
    case Inside => Run(c.exitCode, c.run)
    case Cleaning(_) => Remove
    case Ending(_) => Send
    case Closing(_) => Close
  }

  lemma NextActStep(s: State, k: nat, c: Calls)
    requires StepsInv(s.steps) && k < |s.steps| && !s.steps[k].pc.Done?
    requires StepEnabled(s, k, NextAct(s.steps[k].pc, c))
    requires s.steps[k].pc.Waiting? ==> Received(Look(s, StepDep(k))) == c.dep
    ensures var t := StepMove(s, k, NextAct(s.steps[k].pc, c));
            && |t.steps| == |s.steps|
            && StepWork(t.steps[k].pc) < StepWork(s.steps[k].pc)
            && EndsWith(t.steps[k].pc, c) == EndsWith(s.steps[k].pc, c)
            && s.log + EventsToCome(s.steps[k].pc, k, c) == t.log + EventsToCome(t.steps[k].pc, k, c)
            && (t.steps[k].pc.Waiting? ==> Look(t, StepDep(k)) == Look(s, StepDep(k)))
  {
    match s.steps[k].pc
    case Preparing =>
      assert s.log + [Created(k), Removed(k)] == s.log + [Created(k)] + [Removed(k)];
    case Cleaning(v) => assert s.log + [Removed(k)] + [] == s.log + [Removed(k)];
    case _ =>
  }

  /** In the protocol a step that finds its dependency ready can run to its end on its own, and
      it sends what RunStep computes and creates and removes what RunStep does. */
  lemma {:induction false} StepRunsLikeRunStep(s: State, k: nat, c: Calls) returns (run: seq<Label>, t: State)
    requires StepsInv(s.steps) && k < |s.steps|
    requires s.steps[k].pc.Pulling? || s.steps[k].pc.Waiting? ==>
               CanReceive(Look(s, StepDep(k))) && Received(Look(s, StepDep(k))) == c.dep
    ensures Reaches(s, run, t) && k < |t.steps| && t.steps[k].pc == Done(EndsWith(s.steps[k].pc, c))
    ensures t.log == s.log + EventsToCome(s.steps[k].pc, k, c)
    decreases StepWork(s.steps[k].pc)
  {
    if s.steps[k].pc.Done? {
      run, t := [], s;
    } else {
      var a := NextAct(s.steps[k].pc, c);
      assert StepChan(s.steps[k]);
      NextActStep(s, k, c);
      StepKeepsSteps(s, k, a);
      var u := StepMove(s, k, a);
      assert u == Apply(s, OfStep(k, a));
      var more;
      more, t := StepRunsLikeRunStep(u, k, c);
      run := [OfStep(k, a)] + more;
      assert run[1..] == more;
    }
  }
}
