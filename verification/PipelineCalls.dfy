/** What the calls of a task returned, read off its schedule, and what the select then receives
    (internal/worker/run.go:101-401). */
module PipelineCalls {
  import opened Pipeline
  import opened PipelineProofs

  // --------------------------------------------------------- who did what, in order

  /** The actions of step `k` on a schedule. */
  function StepDid(run: seq<Label>, k: nat): seq<StepAct> {
    if run == [] then []
    else
      var a := run[|run| - 1];
      StepDid(run[..|run| - 1], k) + if a.OfStep? && a.k == k then [a.step] else []
  }

  /** The actions of upload `j`. */
  function ArtDid(run: seq<Label>, j: nat): seq<ArtAct> {
    if run == [] then []
    else
      var a := run[|run| - 1];
      ArtDid(run[..|run| - 1], j) + if a.OfArt? && a.j == j then [a.art] else []
  }

  /** All that the step does from the pull to the removal of its container, with every call
      successful and the exit code zero. */
  function StepSuccess(): seq<StepAct> { [Pull(Nil), Receive, Create(Nil), Run(0, Nil), Remove] }

  predicate ArtEarnedBy(did: seq<ArtAct>) { |did| >= 2 && did[0] == Take && did[1] == Upload(Nil) }

  /** How a step fails: a call returns an error, or the container exits with another code; or
      nothing of its own fails, and it stops at what it received. */
  predicate StepFailure(did: seq<StepAct>, v: Val) {
    v != Nil && (
      did == [Pull(v)]
      || did == [Pull(Nil), Receive]
      || (v.Failed? && did == [Pull(Nil), Receive, EnvFails(v.error)])
      || did == [Pull(Nil), Receive, Create(v)]
      || (|did| == 5 && did[..3] == [Pull(Nil), Receive, Create(Nil)] && did[3].Run? && did[4] == Remove &&
          v == if did[3].exitCode != 0 then Failed(Plain(did[3].exitCode)) else did[3].v))
  }

  predicate StepEnd(did: seq<StepAct>, v: Val) { if v == Nil then did == StepSuccess() else StepFailure(did, v) }

  /** A step at `pc` has done this, and nothing else. */
  predicate StepStory(pc: StepPc, did: seq<StepAct>) {
    match pc
    case Pulling => did == []
    case Waiting => did == [Pull(Nil)]
    case Preparing => did == [Pull(Nil), Receive]
    case Inside => did == [Pull(Nil), Receive, Create(Nil)]
    case Cleaning(v) =>
      |did| == 4 && did[..3] == [Pull(Nil), Receive, Create(Nil)] && did[3].Run? &&
      v == if did[3].exitCode != 0 then Failed(Plain(did[3].exitCode)) else did[3].v
    case Ending(v) => StepEnd(did, v)
    case Closing(v) => |did| > 0 && StepEnd(did[..|did| - 1], v) && did[|did| - 1] == Send
    case Done(v) => |did| > 1 && StepEnd(did[..|did| - 2], v) && did[|did| - 2..] == [Send, Close]
  }

  /** An upload that fails has its own error, unless it stopped at what it received. */
  predicate ArtEnd(did: seq<ArtAct>, v: Val) {
    if v == Nil then did == [Take, Upload(Nil)] else did == [Take] || did == [Take, Upload(v)]
  }

  predicate ArtStory(pc: ArtPc, did: seq<ArtAct>) {
    match pc
    case Blocked => did == []
    case Uploading => did == [Take]
    case Ended(v) => ArtEnd(did, v)
    case Sealing(v) => |did| > 0 && ArtEnd(did[..|did| - 1], v) && did[|did| - 1] == Put
    case Final(v) => |did| > 1 && ArtEnd(did[..|did| - 2], v) && did[|did| - 2..] == [Put, Seal]
  }

  predicate Stories(run: seq<Label>, s: State) {
    && (forall k :: 0 <= k < |s.steps| ==> StepStory(s.steps[k].pc, StepDid(run, k)))
    && (forall j :: 0 <= j < |s.arts| ==> ArtStory(s.arts[j].pc, ArtDid(run, j)))
  }

  lemma DidNext(run: seq<Label>, a: Label)
    ensures forall k :: StepDid(run + [a], k) ==
                        StepDid(run, k) + if a.OfStep? && a.k == k then [a.step] else []
    ensures forall j :: ArtDid(run + [a], j) == ArtDid(run, j) + if a.OfArt? && a.j == j then [a.art] else []
  {
    assert (run + [a])[..|run + [a]| - 1] == run;
  }

  lemma EarlyTold(s: State, k: nat, a: StepAct, did: seq<StepAct>)
    requires k < |s.steps| && StepEnabled(s, k, a) && StepStory(s.steps[k].pc, did)
    requires a.Pull? || a.Receive? || a.EnvFails? || a.Create?
    ensures StepStory(StepMove(s, k, a).steps[k].pc, did + [a])
  {
  }

  lemma RunTold(s: State, k: nat, a: StepAct, did: seq<StepAct>)
    requires k < |s.steps| && StepEnabled(s, k, a) && StepStory(s.steps[k].pc, did) && (a.Run? || a.Remove?)
    ensures StepStory(StepMove(s, k, a).steps[k].pc, did + [a])
  {
    var more := did + [a];
    assert more[..3] == did[..3] && more[3] == if a.Run? then a else did[3];
    if a == Remove {
      assert more == [did[0], did[1], did[2], did[3], Remove];
      assert did[..3] == [did[0], did[1], did[2]];
    }
  }

  lemma EndTold(s: State, k: nat, a: StepAct, did: seq<StepAct>)
    requires k < |s.steps| && StepEnabled(s, k, a) && StepStory(s.steps[k].pc, did) && (a.Send? || a.Close?)
    ensures StepStory(StepMove(s, k, a).steps[k].pc, did + [a])
  {
    var more := did + [a];
    if a == Send {
      assert more[..|more| - 1] == did;
    } else {
      assert more[..|more| - 2] == did[..|did| - 1];
      assert more[|more| - 2..] == [Send, Close];
    }
  }

  lemma StepTold(s: State, k: nat, a: StepAct, did: seq<StepAct>)
    requires k < |s.steps| && StepEnabled(s, k, a) && StepStory(s.steps[k].pc, did)
    ensures StepStory(StepMove(s, k, a).steps[k].pc, did + [a])
  {
    match a
    case Run(_, _) => RunTold(s, k, a, did);
    case Remove => RunTold(s, k, a, did);
    case Send => EndTold(s, k, a, did);
    case Close => EndTold(s, k, a, did);
    case _ => EarlyTold(s, k, a, did);
  }

  lemma ArtTold(s: State, j: nat, a: ArtAct, did: seq<ArtAct>)
    requires j < |s.arts| && ArtEnabled(s, j, a) && ArtStory(s.arts[j].pc, did)
    ensures ArtStory(ArtMove(s, j, a).arts[j].pc, did + [a])
  {
    var more := did + [a];
    match a
    case Put => assert more[..|more| - 1] == did;
    case Seal => assert more[..|more| - 2] == did[..|did| - 1] && more[|more| - 2..] == [Put, Seal];
    case _ =>
  }

  /** Only the goroutine that acts gets on. */
  lemma OthersStay(s: State, a: Label)
    requires Enabled(s, a)
    ensures var t := Apply(s, a);
            && |t.steps| == |s.steps| && |t.arts| == |s.arts|
            && (forall k :: 0 <= k < |s.steps| && a != OfStep(k, if a.OfStep? then a.step else Receive) ==>
                  t.steps[k].pc == s.steps[k].pc)
            && (forall j :: 0 <= j < |s.arts| && a != OfArt(j, if a.OfArt? then a.art else Take) ==>
                  t.arts[j].pc == s.arts[j].pc)
  {
    match a
    case OfStep(k, act) => StepIsLocal(s, k, act);
    case OfArt(j, act) => ArtIsLocal(s, j, act);
    case OfGather(act) =>
    case _ =>
  }

  lemma NextStory(run: seq<Label>, s: State, a: Label)
    requires Stories(run, s) && Enabled(s, a)
    ensures Stories(run + [a], Apply(s, a))
  {
    var t := Apply(s, a);
    DidNext(run, a);
    OthersStay(s, a);
    forall k | 0 <= k < |t.steps| ensures StepStory(t.steps[k].pc, StepDid(run + [a], k)) {
      if a.OfStep? && a.k == k {
        StepTold(s, k, a.step, StepDid(run, k));
      } else {
        assert StepDid(run + [a], k) == StepDid(run, k);
      }
    }
    forall j | 0 <= j < |t.arts| ensures ArtStory(t.arts[j].pc, ArtDid(run + [a], j)) {
      if a.OfArt? && a.j == j {
        ArtTold(s, j, a.art, ArtDid(run, j));
      } else {
        assert ArtDid(run + [a], j) == ArtDid(run, j);
      }
    }
  }

  lemma {:induction false} EveryRunTells(past: seq<Label>, s: State, run: seq<Label>, t: State)
    requires Stories(past, s) && Reaches(s, run, t)
    ensures Stories(past + run, t)
    decreases |run|
  {
    if run == [] {
      assert past + run == past;
    } else {
      NextStory(past, s, run[0]);
      EveryRunTells(past + [run[0]], Apply(s, run[0]), run[1..], t);
      assert past + [run[0]] + run[1..] == past + run;
    }
  }

  /** Every step has gone through all of its calls with success, and so has every upload. */
  predicate AllEarned(n: nat, m: nat, run: seq<Label>) {
    && (forall k :: 0 <= k < n ==> StepSuccess() <= StepDid(run, k))
    && (forall j :: 0 <= j < m ==> ArtEarnedBy(ArtDid(run, j)))
  }

  lemma NotBoth(front: seq<StepAct>, tail: seq<StepAct>, v: Val)
    requires StepFailure(front, v) && (tail != [] ==> tail[0] == Send)
    ensures !(StepSuccess() <= front + tail)
  {
    var did := front + tail;
    assert forall i :: 0 <= i < |front| ==> did[i] == front[i];
    assert tail != [] ==> did[|front|] == Send;
  }

  lemma NotBothUploads(front: seq<ArtAct>, tail: seq<ArtAct>, v: Val)
    requires v != Nil && ArtEnd(front, v) && (tail != [] ==> tail[0] == Put)
    ensures !(ArtEarnedBy(front + tail))
  {
    var did := front + tail;
    assert forall i :: 0 <= i < |front| ==> did[i] == front[i];
    assert tail != [] ==> did[|front|] == Put;
    assert front == [Take] && tail != [] ==> did[1] == Put;
    assert front == [Take, Upload(v)] ==> did[1] == Upload(v);
  }

  lemma StepEarned(pc: StepPc, did: seq<StepAct>)
    requires StepStory(pc, did)
    ensures Sent(pc) && pc.v == Nil ==> StepSuccess() <= did
    ensures StepSuccess() <= did ==> (pc.Ending? || Sent(pc)) && pc.v == Nil
  {
    if pc.Ending? || Sent(pc) {
      var n := if pc.Closing? then 1 else if pc.Done? then 2 else 0;
      StepParts(did[..|did| - n], did[|did| - n..], pc.v);
      assert did == did[..|did| - n] + did[|did| - n..];
    }
  }

  lemma StepParts(front: seq<StepAct>, tail: seq<StepAct>, v: Val)
    requires StepEnd(front, v) && (tail != [] ==> tail[0] == Send)
    ensures StepSuccess() <= front + tail <==> v == Nil
  {
    if v != Nil {
      NotBoth(front, tail, v);
    }
  }

  lemma ArtEarned(pc: ArtPc, did: seq<ArtAct>)
    requires ArtStory(pc, did)
    ensures ArtSent(pc) && pc.v == Nil ==> ArtEarnedBy(did)
    ensures ArtEarnedBy(did) ==> (pc.Ended? || ArtSent(pc)) && pc.v == Nil
  {
    if pc.Ended? || ArtSent(pc) {
      var n := if pc.Sealing? then 1 else if pc.Final? then 2 else 0;
      ArtParts(did[..|did| - n], did[|did| - n..], pc.v);
      assert did == did[..|did| - n] + did[|did| - n..];
    }
  }

  lemma ArtParts(front: seq<ArtAct>, tail: seq<ArtAct>, v: Val)
    requires ArtEnd(front, v) && (tail != [] ==> tail[0] == Put)
    ensures ArtEarnedBy(front + tail) <==> v == Nil
  {
    if v != Nil {
      NotBothUploads(front, tail, v);
    }
  }

  lemma EarnedIfSucceeded(run: seq<Label>, s: State)
    requires Stories(run, s) && AllSucceeded(s)
    ensures AllEarned(|s.steps|, |s.arts|, run)
  {
    forall k | 0 <= k < |s.steps| ensures StepSuccess() <= StepDid(run, k) {
      StepEarned(s.steps[k].pc, StepDid(run, k));
    }
    forall j | 0 <= j < |s.arts| ensures ArtEarnedBy(ArtDid(run, j)) {
      ArtEarned(s.arts[j].pc, ArtDid(run, j));
    }
  }

  lemma NoLeafFails(run: seq<Label>, s: State, v: Val)
    requires Stories(run, s) && LeafEnded(s, v) && AllEarned(|s.steps|, |s.arts|, run)
    ensures v == Nil
  {
    if s.arts != [] {
      var j :| 0 <= j < |s.arts| && ArtSent(s.arts[j].pc) && s.arts[j].pc.v == v;
      ArtEarned(s.arts[j].pc, ArtDid(run, j));
    } else {
      var k := |s.steps| - 1;
      StepEarned(s.steps[k].pc, StepDid(run, k));
    }
  }

  /** The value received from `nextCh` is nil exactly when every step has pulled its image,
      created its container, and run it to exit code zero, and every upload was made, with
      no error from any of these calls. */
  lemma NilIsEarned(n: nat, m: nat, run: seq<Label>, t: State)
    requires Reaches(Init(n, m), run, t) && t.main.FromNext?
    ensures t.main.v == Nil <==> AllEarned(n, m, run)
  {
    EveryRunTells([], Init(n, m), run, t);
    assert [] + run == run;
    ReachableIsGood(n, m, run, t);
    VerdictIsRight(t);
    if t.main.v == Nil {
      EarnedIfSucceeded(run, t);
    } else if AllEarned(n, m, run) {
      NoLeafFails(run, t, t.main.v);
      assert false;
    }
  }

  // ------------------------------------------------------------ where an error comes from

  /** A call of a step or an upload has returned this error, or a container this exit code. */
  predicate Returns(a: Label, v: Val) {
    match a
    case OfStep(_, Pull(w)) => w == v
    case OfStep(_, EnvFails(e)) => v == Failed(e)
    case OfStep(_, Create(w)) => w == v
    case OfStep(_, Run(code, w)) => v == if code != 0 then Failed(Plain(code)) else w
    case OfArt(_, Upload(w)) => w == v
    case _ => false
  }

  predicate Real(run: seq<Label>, v: Val) {
    v == Nil || exists i :: 0 <= i < |run| && Returns(run[i], v)
  }

  predicate RealChan(run: seq<Label>, c: Chan) { forall i :: 0 <= i < |c.buf| ==> Real(run, c.buf[i]) }

  predicate RealStep(run: seq<Label>, a: Step) {
    RealChan(run, a.ch) && (a.pc.Cleaning? || a.pc.Ending? || Sent(a.pc) ==> Real(run, a.pc.v))
  }

  predicate RealArt(run: seq<Label>, a: Art) {
    RealChan(run, a.ch) && (a.pc.Ended? || ArtSent(a.pc) ==> Real(run, a.pc.v))
  }

  predicate AllReal(run: seq<Label>, s: State) {
    && (forall k :: 0 <= k < |s.steps| ==> RealStep(run, s.steps[k]))
    && (forall j :: 0 <= j < |s.arts| ==> RealArt(run, s.arts[j]))
    && (!s.gather.Reading? ==> Real(run, s.gather.v)) && RealChan(run, s.next)
    && (s.main.FromNext? ==> Real(run, s.main.v))
  }

  lemma RealStays(run: seq<Label>, a: Label)
    ensures forall v :: Real(run, v) ==> Real(run + [a], v)
    ensures forall v :: Returns(a, v) ==> Real(run + [a], v)
  {
    var more := run + [a];
    assert more[|run|] == a;
    forall v | Real(run, v) ensures Real(more, v) {
      if v != Nil {
        var i :| 0 <= i < |run| && Returns(run[i], v);
        assert more[i] == run[i];
      }
    }
  }

  lemma StateStaysReal(run: seq<Label>, s: State, a: Label)
    requires AllReal(run, s)
    ensures AllReal(run + [a], s)
  {
    RealStays(run, a);
  }

  /** What is received has been sent. */
  lemma LookIsReal(run: seq<Label>, s: State, c: Source)
    requires AllReal(run, s) && ValidSource(s, c) && CanReceive(Look(s, c))
    ensures Real(run, Received(Look(s, c))) && AllReal(run, Consume(s, c))
  {
    match c
    case Start =>
    case StepOut(k) => assert RealStep(run, s.steps[k]);
    case ArtOut(j) => assert RealArt(run, s.arts[j]);
  }

  lemma StepIsReal(run: seq<Label>, s: State, k: nat, a: StepAct)
    requires AllReal(run, s) && k < |s.steps| && StepEnabled(s, k, a)
    requires forall v :: Returns(OfStep(k, a), v) ==> Real(run, v)
    ensures AllReal(run, StepMove(s, k, a))
  {
    assert RealStep(run, s.steps[k]);
    match a
    case Receive => LookIsReal(run, s, StepDep(k));
    case Pull(v) => assert Returns(OfStep(k, a), v);
    case EnvFails(e) => assert Returns(OfStep(k, a), Failed(e));
    case Create(v) => assert Returns(OfStep(k, a), v);
    case Run(code, v) => assert Returns(OfStep(k, a), if code != 0 then Failed(Plain(code)) else v);
    case _ =>
  }

  lemma ArtIsReal(run: seq<Label>, s: State, j: nat, a: ArtAct)
    requires AllReal(run, s) && j < |s.arts| && ArtEnabled(s, j, a)
    requires forall v :: Returns(OfArt(j, a), v) ==> Real(run, v)
    ensures AllReal(run, ArtMove(s, j, a))
  {
    assert RealArt(run, s.arts[j]);
    match a
    case Take => LookIsReal(run, s, ArtDep(|s.steps|));
    case Upload(v) => assert Returns(OfArt(j, a), v);
    case _ =>
  }

  lemma GatherIsReal(run: seq<Label>, s: State, a: GatherAct)
    requires AllReal(run, s) && GatherEnabled(s, a)
    ensures AllReal(run, GatherMove(s, a))
  {
    if a == ReadLeaf {
      LookIsReal(run, s, Leaf(|s.steps|, |s.arts|, s.gather.i));
    }
  }

  lemma {:induction false} EveryRunIsReal(past: seq<Label>, s: State, run: seq<Label>, t: State)
    requires AllReal(past, s) && Reaches(s, run, t)
    ensures AllReal(past + run, t)
    decreases |run|
  {
    if run == [] {
      assert past + run == past;
    } else {
      var a := run[0];
      var now := past + [a];
      RealStays(past, a);
      StateStaysReal(past, s, a);
      match a {
        case OfStep(k, act) => StepIsReal(now, s, k, act);
        case OfArt(j, act) => ArtIsReal(now, s, j, act);
        case OfGather(act) => GatherIsReal(now, s, act);
        case _ =>
      }
      EveryRunIsReal(now, Apply(s, a), run[1..], t);
      assert past + [a] + run[1..] == past + run;
    }
  }

  /** An error received from `nextCh` is one that a call of a step or an upload returned, or the
      exit code of a container. */
  lemma ErrorIsReal(n: nat, m: nat, run: seq<Label>, t: State)
    requires Reaches(Init(n, m), run, t) && t.main.FromNext? && t.main.v != Nil
    ensures exists i :: 0 <= i < |run| && Returns(run[i], t.main.v)
  {
    EveryRunIsReal([], Init(n, m), run, t);
    assert [] + run == run;
    assert Real(run, t.main.v);
  }

  // ------------------------------------------- uploadArtifact itself, as one thread

  /** With what an upload at `pc` will end, when it receives `dep` and the upload returns `impl`. */
  function UploadEndsWith(pc: ArtPc, dep: Val, impl: Val): Val {
    match pc
    case Blocked => if dep != Nil then dep else impl
    case Uploading => impl
    case _ => pc.v
  }

  /** The body of uploadArtifact. `uploaded` says whether it got as far as the upload. */
  method UploadArtifact(deps: seq<Val>, impl: Val) returns (sent: Val, uploaded: bool)
    ensures uploaded <==> forall i :: 0 <= i < |deps| ==> deps[i] == Nil
    ensures uploaded ==> sent == impl
    ensures !uploaded ==> sent != Nil && sent in deps
    ensures |deps| == 1 ==> sent == UploadEndsWith(Blocked, deps[0], impl)
  {
    var err := Nil;
    var idx := 0;
    while idx < |deps|
      invariant 0 <= idx <= |deps| && forall i :: 0 <= i < idx ==> deps[i] == Nil
    {
      err := deps[idx];
      if err != Nil {
        return err, false;
      }
      idx := idx + 1;
    }
    err := impl;
    return err, true;
  }

  function NextUploadAct(pc: ArtPc, impl: Val): ArtAct
    requires !pc.Final?
  {
    match pc
    case Blocked => Take
    case Uploading => Upload(impl)
    case Ended(_) => Put
    case Sealing(_) => Seal
  }

  /** In the protocol an upload that finds the last step's channel ready can run to its end on
      its own, and it sends what UploadArtifact computes. */
  lemma {:induction false} UploadRunsLikeBody(s: State, j: nat, dep: Val, impl: Val)
    returns (run: seq<Label>, t: State)
    requires j < |s.arts| && ArtChan(s.arts[j])
    requires s.arts[j].pc.Blocked? ==>
               CanReceive(Look(s, ArtDep(|s.steps|))) && Received(Look(s, ArtDep(|s.steps|))) == dep
    ensures Reaches(s, run, t) && j < |t.arts|
    ensures t.arts[j].pc == Final(UploadEndsWith(s.arts[j].pc, dep, impl))
    decreases ArtWork(s.arts[j].pc)
  {
    if s.arts[j].pc.Final? {
      run, t := [], s;
    } else {
      var a := NextUploadAct(s.arts[j].pc, impl);
      UploadActStep(s, j, dep, impl);
      var u := ArtMove(s, j, a);
      assert u == Apply(s, OfArt(j, a));
      var more;
      more, t := UploadRunsLikeBody(u, j, dep, impl);
      run := [OfArt(j, a)] + more;
      assert run[1..] == more;
    }
  }

  lemma UploadActStep(s: State, j: nat, dep: Val, impl: Val)
    requires j < |s.arts| && ArtChan(s.arts[j]) && !s.arts[j].pc.Final?
    requires s.arts[j].pc.Blocked? ==>
               CanReceive(Look(s, ArtDep(|s.steps|))) && Received(Look(s, ArtDep(|s.steps|))) == dep
    ensures var a := NextUploadAct(s.arts[j].pc, impl);
            && ArtEnabled(s, j, a)
            && var t := ArtMove(s, j, a);
               && j < |t.arts| && ArtChan(t.arts[j]) && !t.arts[j].pc.Blocked?
               && ArtWork(t.arts[j].pc) < ArtWork(s.arts[j].pc)
               && UploadEndsWith(t.arts[j].pc, dep, impl) == UploadEndsWith(s.arts[j].pc, dep, impl)
  {
  }
}
