/** Every subscriber sees the written stream, no wakeup is lost, and the contents are frozen
    once the buffer is closed. */
module BroadcastProofs {
  import opened Bytes
  import opened Broadcast

  // ------------------------------------------------------------ the invariant

  predicate OpHolds(pc: OpPc) { pc.Holds? || pc.Notifies? || pc.Leaves? }

  predicate ReadHolds(pc: ReadPc) { pc.Checks? || pc.Looks? || pc.Quits? }

  predicate WakerHolds(w: WakerPc) { w.Rings? || w.Rung? }

  /** The mutex is held by exactly the goroutine that `lock` names. */
  predicate LockInv(s: State) {
    && (forall i :: i in s.ops ==> OpLock(s.lock, i, s.ops[i]))
    && (forall i :: i in s.readers ==> ReaderLock(s.lock, i, s.readers[i]))
    && (s.lock.ByOp? ==> s.lock.id in s.ops)
    && (s.lock.ByReader? || s.lock.ByWaker? ==> s.lock.id in s.readers)
  }

  predicate OpLock(lock: Holder, i: nat, pc: OpPc) { OpHolds(pc) <==> lock == ByOp(i) }

  predicate ReaderLock(lock: Holder, i: nat, r: Reader) {
    (ReadHolds(r.pc) <==> lock == ByReader(i)) && (WakerHolds(r.waker) <==> lock == ByWaker(i))
  }

  /** A goroutine has changed the buffer and is about to call Broadcast. */
  predicate AboutToNotify(s: State) {
    s.lock.ByOp? && s.lock.id in s.ops && s.ops[s.lock.id].Notifies?
  }

  /** The waker has not called Broadcast yet. */
  predicate WillRing(w: WakerPc) { w.Sleeps? || w.Rises? || w.Rings? }

  predicate Pending(r: Reader, res: ReadResult) {
    r.delivered == r.out + Taken(res)
  }

  /** What a reader has delivered and passed on. */
  predicate StreamInv(r: Reader, contents: seq<byte>, closed: bool) {
    && r.offset <= |contents|
    && r.delivered == contents[..r.offset]
    && (match r.pc
        case Quits(res) => Pending(r, res) && (res == EOF ==> closed && r.offset == |contents|)
        case Gives(res) => Pending(r, res) && (res == EOF ==> closed && r.offset == |contents|)
        case Stopped(res) => Pending(r, res) && (res == EOF ==> closed && r.offset == |contents|)
        case _ => r.out == r.delivered)
  }

  /** A parked reader has nothing to read, and somebody to wake it when its context ends. */
  predicate WakeInv(s: State, r: Reader) {
    && (!r.waker.Sleeps? ==> r.ctxDone)
    && (r.pc.Looks? || r.pc.Parked? ==> r.ctxDone ==> WillRing(r.waker))
    && (r.pc.Parked? ==> AboutToNotify(s) || (r.offset == |s.contents| && !s.closed))
  }

  predicate Streams(s: State) {
    forall i :: i in s.readers ==> StreamInv(s.readers[i], s.contents, s.closed)
  }

  predicate Wakes(s: State) {
    forall i :: i in s.readers ==> WakeInv(s, s.readers[i])
  }

  predicate Accepted(s: State) { s.contents == Flatten(s.accepted) }

  predicate Inv(s: State) {
    LockInv(s) && Streams(s) && Wakes(s) && Accepted(s)
  }

  // Operations

  lemma OpKeepsLock(s: State, i: nat, a: OpAct)
    requires LockInv(s) && i in s.ops && OpEnabled(s, i, a)
    ensures LockInv(OpMove(s, i, a))
  {
    var t := OpMove(s, i, a);
    assert OpLock(s.lock, i, s.ops[i]);
    forall k | k in t.ops ensures OpLock(t.lock, k, t.ops[k]) {
      assert OpLock(s.lock, k, s.ops[k]);
    }
    forall k | k in t.readers ensures ReaderLock(t.lock, k, t.readers[k]) {
      assert ReaderLock(s.lock, k, s.readers[k]);
    }
  }

  /** The buffer only grows, and not at all once it is closed. */
  lemma OpGrows(s: State, i: nat, a: OpAct)
    requires i in s.ops && OpEnabled(s, i, a)
    ensures var t := OpMove(s, i, a);
            s.contents <= t.contents && (s.closed ==> t.closed && t.contents == s.contents)
  {
  }

  lemma OpKeepsStreams(s: State, i: nat, a: OpAct)
    requires Streams(s) && i in s.ops && OpEnabled(s, i, a)
    ensures Streams(OpMove(s, i, a))
  {
    var t := OpMove(s, i, a);
    OpGrows(s, i, a);
    forall k | k in t.readers
      ensures StreamInv(t.readers[k], t.contents, t.closed)
    {
      assert StreamInv(s.readers[k], s.contents, s.closed);
    }
  }

  lemma OpKeepsWakes(s: State, i: nat, a: OpAct)
    requires LockInv(s) && Wakes(s) && i in s.ops && OpEnabled(s, i, a)
    ensures Wakes(OpMove(s, i, a))
  {
    var t := OpMove(s, i, a);
    forall k | k in t.readers
      ensures WakeInv(t, t.readers[k])
    {
      assert WakeInv(s, s.readers[k]);
      match a
      case Lock =>
      case Body =>
      case Notify =>
      case Unlock =>
    }
  }

  lemma OpKeepsAccepted(s: State, i: nat, a: OpAct)
    requires Accepted(s) && i in s.ops && OpEnabled(s, i, a)
    ensures Accepted(OpMove(s, i, a))
  {
    var t := OpMove(s, i, a);
    if t.accepted != s.accepted {
      assert t.accepted[..|t.accepted| - 1] == s.accepted;
    }
  }

  // Readers

  /** A reader changes neither the buffer nor another reader. */
  lemma ReadIsLocal(s: State, i: nat, a: ReadAct)
    requires i in s.readers && ReadEnabled(s, i, a)
    ensures var t := ReadMove(s, i, a);
            && t.contents == s.contents && t.closed == s.closed && t.ops == s.ops
            && i in t.readers && t.readers == s.readers[i := t.readers[i]]
  {
  }

  /** The reader's own part of the lock, and what its action does to the rest. */
  lemma ReadMovesLock(s: State, i: nat, a: ReadAct)
    requires i in s.readers && ReaderLock(s.lock, i, s.readers[i]) && ReadEnabled(s, i, a)
    ensures var t := ReadMove(s, i, a);
            && ReaderLock(t.lock, i, t.readers[i])
            && t.readers[i].waker == s.readers[i].waker
            && (t.lock == s.lock || (s.lock == Free && t.lock == ByReader(i)) ||
                (s.lock == ByReader(i) && t.lock == Free))
  {
  }

  lemma ReadKeepsLock(s: State, i: nat, a: ReadAct)
    requires LockInv(s) && i in s.readers && ReadEnabled(s, i, a)
    ensures LockInv(ReadMove(s, i, a))
  {
    var t := ReadMove(s, i, a);
    ReadMovesLock(s, i, a);
    ReadIsLocal(s, i, a);
    forall k | k in t.ops ensures OpLock(t.lock, k, t.ops[k]) {
      assert OpLock(s.lock, k, s.ops[k]);
    }
    forall k | k in t.readers ensures ReaderLock(t.lock, k, t.readers[k]) {
      assert ReaderLock(s.lock, k, s.readers[k]);
    }
  }

  lemma LookKeepsStream(r: Reader, contents: seq<byte>, closed: bool)
    requires StreamInv(r, contents, closed) && r.pc.Looks?
    ensures var found := Peek(contents, closed, r.offset, r.pc.len);
            found.Found? ==>
              StreamInv(r.(pc := Quits(found.res), offset := r.offset + |Taken(found.res)|,
                           delivered := r.delivered + Taken(found.res)), contents, closed)
  {
    var found := Peek(contents, closed, r.offset, r.pc.len);
    if found.Found? {
      var k := |Taken(found.res)|;
      assert contents[..r.offset] + contents[r.offset..r.offset + k] == contents[..r.offset + k];
      assert found.res == EOF ==> r.delivered + [] == r.delivered;
    }
  }

  lemma ReadKeepsStream(s: State, i: nat, a: ReadAct)
    requires i in s.readers && StreamInv(s.readers[i], s.contents, s.closed) && ReadEnabled(s, i, a)
    ensures StreamInv(ReadMove(s, i, a).readers[i], s.contents, s.closed)
  {
    var r := s.readers[i];
    if a == Look {
      LookKeepsStream(r, s.contents, s.closed);
    } else {
      assert r.out + [] == r.out;
    }
  }

  lemma ReadKeepsStreams(s: State, i: nat, a: ReadAct)
    requires Streams(s) && i in s.readers && ReadEnabled(s, i, a)
    ensures Streams(ReadMove(s, i, a))
  {
    var t := ReadMove(s, i, a);
    ReadIsLocal(s, i, a);
    ReadKeepsStream(s, i, a);
    forall k | k in t.readers ensures StreamInv(t.readers[k], t.contents, t.closed) {
      assert k != i ==> StreamInv(s.readers[k], s.contents, s.closed);
    }
  }

  lemma ReadKeepsWake(s: State, i: nat, a: ReadAct)
    requires LockInv(s) && i in s.readers && ReadEnabled(s, i, a)
    requires StreamInv(s.readers[i], s.contents, s.closed) && WakeInv(s, s.readers[i])
    ensures WakeInv(ReadMove(s, i, a), ReadMove(s, i, a).readers[i])
  {
    assert ReaderLock(s.lock, i, s.readers[i]);
    match a
    case Look =>
    case CheckContext =>
    case _ =>
  }

  /** While a reader acts, nobody is about to call Broadcast, or that one still is. */
  lemma NotifierStays(s: State, i: nat, a: ReadAct)
    requires LockInv(s) && i in s.readers && ReadEnabled(s, i, a) && AboutToNotify(s)
    ensures AboutToNotify(ReadMove(s, i, a))
  {
    assert ReaderLock(s.lock, i, s.readers[i]);
  }

  lemma ReadKeepsWakes(s: State, i: nat, a: ReadAct)
    requires LockInv(s) && Streams(s) && Wakes(s) && i in s.readers && ReadEnabled(s, i, a)
    ensures Wakes(ReadMove(s, i, a))
  {
    var t := ReadMove(s, i, a);
    assert WakeInv(s, s.readers[i]) && StreamInv(s.readers[i], s.contents, s.closed);
    ReadIsLocal(s, i, a);
    ReadKeepsWake(s, i, a);
    if AboutToNotify(s) {
      NotifierStays(s, i, a);
    }
    forall k | k in t.readers ensures WakeInv(t, t.readers[k]) {
      assert k != i ==> WakeInv(s, s.readers[k]);
    }
  }

  // Wakers

  lemma WakerKeepsLock(s: State, i: nat, a: WakeAct)
    requires LockInv(s) && i in s.readers && WakerEnabled(s, i, a)
    ensures LockInv(WakerMove(s, i, a))
  {
    var t := WakerMove(s, i, a);
    assert ReaderLock(s.lock, i, s.readers[i]);
    forall k | k in t.ops ensures OpLock(t.lock, k, t.ops[k]) {
      assert OpLock(s.lock, k, s.ops[k]);
    }
    forall k | k in t.readers ensures ReaderLock(t.lock, k, t.readers[k]) {
      assert ReaderLock(s.lock, k, s.readers[k]);
    }
  }

  lemma WakerKeepsStreams(s: State, i: nat, a: WakeAct)
    requires Streams(s) && i in s.readers && WakerEnabled(s, i, a)
    ensures Streams(WakerMove(s, i, a))
  {
    var t := WakerMove(s, i, a);
    forall k | k in t.readers
      ensures StreamInv(t.readers[k], t.contents, t.closed)
    {
      assert StreamInv(s.readers[k], s.contents, s.closed);
    }
  }

  lemma WakerKeepsWakes(s: State, i: nat, a: WakeAct)
    requires LockInv(s) && Wakes(s) && i in s.readers && WakerEnabled(s, i, a)
    ensures Wakes(WakerMove(s, i, a))
  {
    var t := WakerMove(s, i, a);
    forall k | k in t.readers
      ensures WakeInv(t, t.readers[k])
    {
      assert WakeInv(s, s.readers[k]);
      match a
      case Rise =>
      case Take =>
      case Ring =>
      case Release =>
    }
  }

  lemma StepKeepsLock(s: State, a: Label)
    requires Inv(s) && Enabled(s, a)
    ensures LockInv(Apply(s, a))
  {
    match a
    case OfOp(i, act) => OpKeepsLock(s, i, act);
    case OfReader(i, act) => ReadKeepsLock(s, i, act);
    case OfWaker(i, act) => WakerKeepsLock(s, i, act);
    case _ =>
  }

  lemma StepKeepsStreams(s: State, a: Label)
    requires Inv(s) && Enabled(s, a)
    ensures Streams(Apply(s, a))
  {
    match a
    case OfOp(i, act) => OpKeepsStreams(s, i, act);
    case OfReader(i, act) => ReadKeepsStreams(s, i, act);
    case OfWaker(i, act) => WakerKeepsStreams(s, i, act);
    case _ =>
  }

  lemma StepKeepsWakes(s: State, a: Label)
    requires Inv(s) && Enabled(s, a)
    ensures Wakes(Apply(s, a))
  {
    match a
    case OfOp(i, act) => OpKeepsWakes(s, i, act);
    case OfReader(i, act) => ReadKeepsWakes(s, i, act);
    case OfWaker(i, act) => WakerKeepsWakes(s, i, act);
    case _ =>
  }

  lemma StepKeepsAccepted(s: State, a: Label)
    requires Accepted(s) && Enabled(s, a)
    ensures Accepted(Apply(s, a))
  {
    match a
    case OfOp(i, act) => OpKeepsAccepted(s, i, act);
    case OfReader(i, act) =>
    case OfWaker(i, act) =>
    case _ =>
  }

  lemma StepKeepsInv(s: State, a: Label)
    requires Inv(s) && Enabled(s, a)
    ensures Inv(Apply(s, a))
  {
    StepKeepsLock(s, a);
    StepKeepsStreams(s, a);
    StepKeepsWakes(s, a);
    StepKeepsAccepted(s, a);
  }

  lemma {:induction false} EveryRunKeepsInv(s: State, run: seq<Label>, t: State)
    requires Inv(s) && Reaches(s, run, t)
    ensures Inv(t)
    decreases |run|
  {
    if run != [] {
      StepKeepsInv(s, run[0]);
      EveryRunKeepsInv(Apply(s, run[0]), run[1..], t);
    }
  }

  // ---------------------------------------------------------------- the theorems

  /** Each reader has delivered the prefix of the accepted writes that its offset names, and
      its consumer has passed on all of that, or all but the last result. A reader that
      stopped at EOF has passed on the whole contents of the closed buffer. */
  lemma SubscribersSeeTheStream(run: seq<Label>, t: State, i: nat)
    requires Reaches(Init(), run, t) && i in t.readers
    ensures t.readers[i].offset <= |Flatten(t.accepted)|
    ensures t.readers[i].delivered == Flatten(t.accepted)[..t.readers[i].offset]
    ensures t.readers[i].out <= t.readers[i].delivered
    ensures t.readers[i].pc == Gives(EOF) || t.readers[i].pc == Stopped(EOF) ==>
              t.closed && t.readers[i].out == Flatten(t.accepted)
  {
    EveryRunKeepsInv(Init(), run, t);
    assert StreamInv(t.readers[i], t.contents, t.closed);
  }

  /** A parked reader has read everything and the buffer is open, or a broadcast is about to
      happen; and if its context has ended, its waker has not rung yet. With the mutex free
      the waker can then act at once. */
  lemma NoLostWakeup(run: seq<Label>, t: State, i: nat)
    requires Reaches(Init(), run, t) && i in t.readers && t.readers[i].pc.Parked?
    ensures (t.readers[i].offset == |t.contents| && !t.closed) ||
            (AboutToNotify(t) && Enabled(t, OfOp(t.lock.id, Notify)))
    ensures t.readers[i].ctxDone ==> WillRing(t.readers[i].waker)
    ensures t.lock == Free ==>
              t.readers[i].offset == |t.contents| && !t.closed &&
              (t.readers[i].ctxDone ==> Enabled(t, OfWaker(i, Rise)) || Enabled(t, OfWaker(i, Take)))
  {
    EveryRunKeepsInv(Init(), run, t);
    assert WakeInv(t, t.readers[i]);
  }

  /** The goroutine that holds the mutex can go on, and it is the only one that holds it. */
  lemma HolderActs(s: State)
    requires Inv(s) && s.lock != Free
    ensures exists a :: Internal(a) && Enabled(s, a)
  {
    match s.lock
    case ByOp(i) =>
      var act := if s.ops[i].Holds? then Body else if s.ops[i].Notifies? then Notify else Unlock;
      assert Internal(OfOp(i, act)) && Enabled(s, OfOp(i, act));
    case ByReader(i) =>
      var pc := s.readers[i].pc;
      assert StreamInv(s.readers[i], s.contents, s.closed);
      var act := if pc.Checks? then CheckContext else if pc.Looks? then Look else Quit;
      assert Internal(OfReader(i, act)) && Enabled(s, OfReader(i, act));
    case ByWaker(i) =>
      var act := if s.readers[i].waker.Rings? then Ring else Release;
      assert Internal(OfWaker(i, act)) && Enabled(s, OfWaker(i, act));
  }

  /** The actions of calls in progress: not a new call, a new reader or a cancellation. */
  predicate Internal(a: Label) {
    a.OfOp? || a.OfWaker? || (a.OfReader? && !a.read.Enter?)
  }

  /** Not in Read, or asleep with nothing left to read from an open buffer and a live context. */
  predicate Rightful(s: State, r: Reader) {
    r.pc.Outside? || r.pc.Stopped? ||
    (r.pc.Parked? && r.delivered == s.contents && !s.closed && !r.ctxDone)
  }

  /** When no call in progress can go on, every write, close and length has returned, and a
      reader that is still in Read has nothing left to read from an open buffer and a live
      context. So no reader sleeps through a write, a close or a cancellation. */
  lemma OnlyRightfulSleepers(run: seq<Label>, t: State)
    requires Reaches(Init(), run, t)
    requires forall a :: Internal(a) ==> !Enabled(t, a)
    ensures forall i :: i in t.ops ==> t.ops[i].Returned?
    ensures forall i :: i in t.readers ==> Rightful(t, t.readers[i])
  {
    EveryRunKeepsInv(Init(), run, t);
    if t.lock != Free {
      HolderActs(t);
    }
    forall i | i in t.ops
      ensures t.ops[i].Returned?
    {
      assert !Enabled(t, OfOp(i, Lock));
    }
    forall i | i in t.readers
      ensures Rightful(t, t.readers[i])
    {
      assert WakeInv(t, t.readers[i]) && StreamInv(t.readers[i], t.contents, t.closed);
      assert !Enabled(t, OfReader(i, Acquire)) && !Enabled(t, OfReader(i, Forward(true)));
      assert !Enabled(t, OfWaker(i, Rise)) && !Enabled(t, OfWaker(i, Take));
    }
  }

  // --------------------------------------------------------- after the close

  lemma StepGrows(s: State, a: Label)
    requires Enabled(s, a)
    ensures var t := Apply(s, a);
            s.contents <= t.contents && (s.closed ==> t.closed && t.contents == s.contents)
  {
    match a
    case OfOp(i, act) => OpGrows(s, i, act);
    case OfReader(i, act) =>
    case OfWaker(i, act) =>
    case _ =>
  }

  /** A length that is measured by a call which takes the mutex after the close. */
  predicate MeasuredLater(s: State, i: nat) {
    i in s.ops ==> s.ops[i] == Wants(Len) || s.ops[i] == Holds(Len)
  }

  predicate Measures(s: State, i: nat, n: nat) {
    i in s.ops ==>
      match s.ops[i]
      case Notifies(Length(k)) => k == n
      case Leaves(Length(k)) => k == n
      case Returned(Length(k)) => k == n
      case _ => true
  }

  lemma {:induction false} FrozenAfterClose(s: State, run: seq<Label>, t: State, i: nat)
    requires s.closed && Measures(s, i, |s.contents|) && Reaches(s, run, t)
    ensures t.closed && t.contents == s.contents && Measures(t, i, |s.contents|)
    decreases |run|
  {
    if run != [] {
      var u := Apply(s, run[0]);
      StepGrows(s, run[0]);
      assert Measures(u, i, |u.contents|) by {
        MeasureStep(s, run[0], i);
      }
      FrozenAfterClose(u, run[1..], t, i);
    }
  }

  lemma MeasureStep(s: State, a: Label, i: nat)
    requires s.closed && Measures(s, i, |s.contents|) && Enabled(s, a)
    ensures Measures(Apply(s, a), i, |s.contents|)
  {
    match a
    case OfOp(k, Lock) =>
    case OfOp(k, Body) =>
    case OfOp(k, Notify) =>
    case OfOp(k, Unlock) =>
    case OfReader(k, act) =>
    case OfWaker(k, act) =>
    case _ =>
  }

  /** The log upload: once the buffer is closed, the length that a call of Len measures is the
      number of bytes that any subscription yields before EOF, although other goroutines still
      try to write. */
  lemma UploadLengthIsRight(before: seq<Label>, s: State, run: seq<Label>, t: State, i: nat, r: nat)
    requires Reaches(Init(), before, s) && s.closed && MeasuredLater(s, i)
    requires Reaches(s, run, t)
    requires i in t.ops && t.ops[i].Returned? && t.ops[i].res.Length?
    requires r in t.readers && t.readers[r].pc == Stopped(EOF)
    ensures t.ops[i].res.n == |t.readers[r].out|
  {
    EveryRunKeepsInv(Init(), before, s);
    EveryRunKeepsInv(s, run, t);
    FrozenAfterClose(s, run, t, i);
    assert StreamInv(t.readers[r], t.contents, t.closed);
  }

  /** A call of Close that is past its change of the buffer. */
  predicate SaysClosed(pc: OpPc) {
    (pc.Notifies? || pc.Leaves? || pc.Returned?) && pc.res == ClosedOk
  }

  predicate ClosersAreRight(s: State) {
    forall i :: i in s.ops && SaysClosed(s.ops[i]) ==> s.closed
  }

  lemma StepKeepsClosers(s: State, a: Label)
    requires ClosersAreRight(s) && Enabled(s, a)
    ensures ClosersAreRight(Apply(s, a))
  {
    var t := Apply(s, a);
    StepGrows(s, a);
    forall i | i in t.ops && SaysClosed(t.ops[i])
      ensures t.closed
    {
      if i in s.ops && SaysClosed(s.ops[i]) {
      } else {
        assert a == OfOp(i, Body);
      }
    }
  }

  lemma {:induction false} EveryRunKeepsClosers(s: State, run: seq<Label>, t: State)
    requires ClosersAreRight(s) && Reaches(s, run, t)
    ensures ClosersAreRight(t)
    decreases |run|
  {
    if run != [] {
      StepKeepsClosers(s, run[0]);
      EveryRunKeepsClosers(Apply(s, run[0]), run[1..], t);
    }
  }

  /** In the terms of the caller: a call of Close has returned, and then the length is asked
      for; whatever others still try to write, and whether the subscription began before or
      after, its bytes up to EOF are as many as that length says. */
  lemma UploadAfterClose(before: seq<Label>, s: State, close: nat, run: seq<Label>, t: State, len: nat, r: nat)
    requires Reaches(Init(), before, s) && close in s.ops && s.ops[close] == Returned(ClosedOk)
    requires len !in s.ops && Reaches(s, run, t)
    requires len in t.ops && t.ops[len].Returned? && t.ops[len].res.Length?
    requires r in t.readers && t.readers[r].pc == Stopped(EOF)
    ensures t.ops[len].res.n == |t.readers[r].out|
  {
    EveryRunKeepsClosers(Init(), before, s);
    UploadLengthIsRight(before, s, run, t, len, r);
  }

  // ------------------------------------------------------------ who did it

  /** The buffer is closed by a call of Close, and by nothing else. */
  lemma {:induction false} ClosedByClose(s: State, run: seq<Label>, t: State)
    requires Reaches(s, run, t) && (s.closed ==> exists i :: i in s.ops && SaysClosed(s.ops[i]))
    ensures t.closed ==> exists i :: i in t.ops && SaysClosed(t.ops[i])
    decreases |run|
  {
    if run != [] {
      var u := Apply(s, run[0]);
      if u.closed {
        if s.closed {
          var i :| i in s.ops && SaysClosed(s.ops[i]);
          SaysClosedStays(s, run[0], i);
        } else {
          ClosesNow(s, run[0]);
        }
      }
      ClosedByClose(u, run[1..], t);
    }
  }

  lemma SaysClosedStays(s: State, a: Label, i: nat)
    requires Enabled(s, a) && i in s.ops && SaysClosed(s.ops[i])
    ensures i in Apply(s, a).ops && SaysClosed(Apply(s, a).ops[i])
  {
    match a
    case OfOp(k, Lock) =>
    case OfOp(k, Body) =>
    case OfOp(k, Notify) =>
    case OfOp(k, Unlock) =>
    case OfReader(k, act) => ReadIsLocal(s, k, act);
    case OfWaker(k, act) =>
    case _ =>
  }

  lemma ClosesNow(s: State, a: Label)
    requires Enabled(s, a) && !s.closed && Apply(s, a).closed
    ensures a.OfOp? && a.op in Apply(s, a).ops && SaysClosed(Apply(s, a).ops[a.op])
  {
    match a
    case OfOp(k, act) =>
    case OfReader(k, act) => ReadIsLocal(s, k, act);
    case OfWaker(k, act) =>
    case _ =>
  }

  /** What the environment has done to reader `i`: ended its context, and refused its bytes. */
  predicate Story(r: Reader, cancelled: bool, refused: bool) {
    && (r.ctxDone <==> cancelled)
    && (r.pc == Quits(Cancelled) || r.pc == Gives(Cancelled) || r.pc == Stopped(Cancelled) ==> cancelled)
    && (r.pc.Stopped? && r.pc.res.Data? <==> refused)
    && (refused ==> r.pc.Stopped?)
  }

  lemma ReaderTold(s: State, i: nat, a: ReadAct, cancelled: bool, refused: bool)
    requires i in s.readers && ReadEnabled(s, i, a) && Story(s.readers[i], cancelled, refused)
    ensures Story(ReadMove(s, i, a).readers[i], cancelled,
                  refused || (a == Forward(false) && s.readers[i].pc.res.Data?))
  {
  }

  lemma WokenTold(r: Reader, cancelled: bool, refused: bool)
    requires Story(r, cancelled, refused)
    ensures Story(Wake(r), cancelled, refused)
  {
  }

  /** A reader that another goroutine moves at most wakes up. */
  lemma OnlyWoken(s: State, a: Label, i: nat)
    requires Enabled(s, a) && i in s.readers && !(a.OfReader? && a.id == i) && a != Cancel(i)
    ensures i in Apply(s, a).readers
    ensures var r := Apply(s, a).readers[i];
            (r.pc == s.readers[i].pc || r.pc == Wake(s.readers[i]).pc) && r.ctxDone == s.readers[i].ctxDone
  {
    match a
    case OfOp(k, Lock) =>
    case OfOp(k, Body) =>
    case OfOp(k, Notify) =>
    case OfOp(k, Unlock) =>
    case OfReader(k, act) => ReadIsLocal(s, k, act);
    case OfWaker(k, act) =>
    case _ =>
  }

  /** What a schedule holds of refusals: bytes that a consumer in its hands did not take. */
  predicate Refuses(s: State, a: Label, i: nat) {
    a == OfReader(i, Forward(false)) && i in s.readers && s.readers[i].pc.Gives? && s.readers[i].pc.res.Data?
  }

  predicate Refused(s: State, run: seq<Label>, i: nat)
    decreases |run|
  {
    run != [] && Enabled(s, run[0]) && (Refuses(s, run[0], i) || Refused(Apply(s, run[0]), run[1..], i))
  }

  lemma {:induction false} EveryRunIsTold(s: State, run: seq<Label>, t: State, i: nat, cancelled: bool, refused: bool)
    requires Reaches(s, run, t) && (i in s.readers ==> Story(s.readers[i], cancelled, refused))
    requires i !in s.readers ==> !cancelled && !refused
    ensures i in t.readers ==>
              Story(t.readers[i], cancelled || Cancel(i) in run, refused || Refused(s, run, i))
    decreases |run|
  {
    if run != [] {
      var a := run[0];
      var u := Apply(s, a);
      var more := cancelled || a == Cancel(i);
      var less := refused || Refuses(s, a, i);
      assert run == [a] + run[1..];
      if i in s.readers {
        if a.OfReader? && a.id == i {
          ReaderTold(s, i, a.read, cancelled, refused);
        } else if a != Cancel(i) {
          OnlyWoken(s, a, i);
          WokenTold(s.readers[i], cancelled, refused);
        }
      } else if i in u.readers {
        assert a == Subscribe(i) by {
          NewReader(s, a, i);
        }
      }
      EveryRunIsTold(u, run[1..], t, i, more, less);
    }
  }

  lemma NewReader(s: State, a: Label, i: nat)
    requires Enabled(s, a) && i !in s.readers && i in Apply(s, a).readers
    ensures a == Subscribe(i)
  {
    match a
    case OfOp(k, act) =>
    case OfReader(k, act) => ReadIsLocal(s, k, act);
    case OfWaker(k, act) =>
    case _ =>
  }

  /** A reader's context has ended exactly if it was cancelled, and it stops for that reason only
      then; and it stops with bytes in its hands exactly if the consumer refused them. The
      buffer is closed exactly if a call of Close has done it. */
  lemma EndsForAReason(run: seq<Label>, t: State)
    requires Reaches(Init(), run, t)
    ensures t.closed <==> exists k :: k in t.ops && SaysClosed(t.ops[k])
    ensures forall i :: i in t.readers ==>
              var r := t.readers[i];
              && (r.ctxDone <==> Cancel(i) in run)
              && (r.pc == Stopped(Cancelled) ==> Cancel(i) in run)
              && (r.pc.Stopped? && r.pc.res.Data? <==> Refused(Init(), run, i))
  {
    ClosedByClose(Init(), run, t);
    EveryRunKeepsClosers(Init(), run, t);
    forall i | i in t.readers
      ensures Story(t.readers[i], Cancel(i) in run, Refused(Init(), run, i))
    {
      EveryRunIsTold(Init(), run, t, i, false, false);
    }
  }
}
