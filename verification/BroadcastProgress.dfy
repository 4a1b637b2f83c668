/** The calls in progress settle: without new calls, a schedule of the buffer's goroutines is
    short, and at its end nobody sleeps who should not (internal/pubsubbuffer/pubsubbuffer.go). */
module BroadcastProgress {
  import opened Broadcast
  import opened BroadcastProofs

  // ------------------------------------------------------------- sums over a map

  ghost function Sum(m: map<nat, nat>): nat {
    if m == map[] then 0
    else
      var k :| k in m;
      m[k] + Sum(m - {k})
  }

  lemma {:induction false} SumRemove(m: map<nat, nat>, k: nat)
    requires k in m
    ensures Sum(m) == m[k] + Sum(m - {k})
    decreases |m|
  {
    var x :| x in m && Sum(m) == m[x] + Sum(m - {x});
    if x != k {
      SumRemove(m - {x}, k);
      SumRemove(m - {k}, x);
      assert m - {x} - {k} == m - {k} - {x};
    }
  }

  lemma SumUpdate(m: map<nat, nat>, k: nat, v: nat)
    requires k in m
    ensures Sum(m[k := v]) + m[k] == Sum(m) + v
  {
    SumRemove(m, k);
    SumRemove(m[k := v], k);
    assert m[k := v] - {k} == m - {k};
  }

  lemma Times(d: nat, n: nat)
    ensures d * (n + 1) == d * n + d
  {
  }

  lemma {:induction false} SumGrows(m: map<nat, nat>, m': map<nat, nat>, d: nat)
    requires m.Keys == m'.Keys && forall k :: k in m ==> m'[k] <= m[k] + d
    ensures Sum(m') <= Sum(m) + d * |m|
    decreases |m|
  {
    if m.Keys == {} {
      assert m == map[] && m' == map[];
    } else {
      var k :| k in m;
      SumRemove(m, k);
      SumRemove(m', k);
      SumGrows(m - {k}, m' - {k}, d);
      assert m.Keys == (m - {k}).Keys + {k};
      var n := |m - {k}|;
      assert |m| == n + 1;
      Times(d, n);
    }
  }

  lemma SumBound(m: map<nat, nat>, d: nat)
    requires forall k :: k in m ==> m[k] <= d
    ensures Sum(m) <= d * |m|
  {
    var zero := map k | k in m :: 0;
    SumZero(zero);
    assert zero.Keys == m.Keys;
    SumGrows(zero, m, d);
  }

  lemma {:induction false} SumZero(m: map<nat, nat>)
    requires forall k :: k in m ==> m[k] == 0
    ensures Sum(m) == 0
    decreases |m|
  {
    if k :| k in m {
      SumRemove(m, k);
      SumZero(m - {k});
    }
  }

  // ------------------------------------------------------------------- the measure

  /** What one call of Broadcast costs: each reader may have to look again. */
  function WakeCost(s: State): nat { 5 * |s.readers| }

  function OpWork(pc: OpPc, wake: nat): nat {
    match pc
    case Wants(_) => 4 + wake
    case Holds(_) => 3 + wake
    case Notifies(_) => 2 + wake
    case Leaves(_) => 1
    case Returned(_) => 0
  }

  function ReadWork(pc: ReadPc): nat {
    match pc
    case Enters(_) => 5
    case Woken(_) => 5
    case Checks(_) => 4
    case Looks(_) => 3
    case Quits(_) => 2
    case Gives(_) => 1
    case _ => 0
  }

  function WakerWork(w: WakerPc, wake: nat): nat {
    match w
    case Sleeps => 4 + wake
    case Rises => 3 + wake
    case Rings => 2 + wake
    case Rung => 1
    case Gone => 0
  }

  function ReaderWork(r: Reader, wake: nat): nat { ReadWork(r.pc) + WakerWork(r.waker, wake) }

  ghost function OpWorks(ops: map<nat, OpPc>, wake: nat): map<nat, nat> {
    map i | i in ops :: OpWork(ops[i], wake)
  }

  ghost function ReaderWorks(readers: map<nat, Reader>, wake: nat): map<nat, nat> {
    map i | i in readers :: ReaderWork(readers[i], wake)
  }

  ghost function Work(s: State): nat {
    Sum(OpWorks(s.ops, WakeCost(s))) + Sum(ReaderWorks(s.readers, WakeCost(s)))
  }

  lemma OpsUpdate(ops: map<nat, OpPc>, i: nat, pc: OpPc, wake: nat)
    requires i in ops
    ensures Sum(OpWorks(ops[i := pc], wake)) + OpWork(ops[i], wake) ==
            Sum(OpWorks(ops, wake)) + OpWork(pc, wake)
  {
    SumUpdate(OpWorks(ops, wake), i, OpWork(pc, wake));
    assert OpWorks(ops[i := pc], wake) == OpWorks(ops, wake)[i := OpWork(pc, wake)];
  }

  lemma ReadersUpdate(readers: map<nat, Reader>, i: nat, r: Reader, wake: nat)
    requires i in readers
    ensures Sum(ReaderWorks(readers[i := r], wake)) + ReaderWork(readers[i], wake) ==
            Sum(ReaderWorks(readers, wake)) + ReaderWork(r, wake)
    ensures |readers[i := r]| == |readers|
  {
    SumUpdate(ReaderWorks(readers, wake), i, ReaderWork(r, wake));
    assert ReaderWorks(readers[i := r], wake) == ReaderWorks(readers, wake)[i := ReaderWork(r, wake)];
    assert readers[i := r].Keys == readers.Keys;
  }

  lemma WakingCosts(readers: map<nat, Reader>, wake: nat)
    ensures Sum(ReaderWorks(WakeAll(readers), wake)) <= Sum(ReaderWorks(readers, wake)) + 5 * |readers|
    ensures |WakeAll(readers)| == |readers|
  {
    assert WakeAll(readers).Keys == readers.Keys;
    SumGrows(ReaderWorks(readers, wake), ReaderWorks(WakeAll(readers), wake), 5);
    assert ReaderWorks(readers, wake).Keys == readers.Keys;
  }

  /** A call's own action is local, but for the wakeups; these it pays for. */
  lemma OpIsLocal(s: State, i: nat, a: OpAct)
    requires i in s.ops && OpEnabled(s, i, a)
    ensures var t, wake := OpMove(s, i, a), WakeCost(s);
            && i in t.ops && t.ops == s.ops[i := t.ops[i]]
            && t.readers == (if a == Notify then WakeAll(s.readers) else s.readers)
            && OpWork(t.ops[i], wake) + (if a == Notify then wake else 0) < OpWork(s.ops[i], wake)
  {
  }

  lemma OpDecreases(s: State, i: nat, a: OpAct)
    requires i in s.ops && OpEnabled(s, i, a)
    ensures var t := OpMove(s, i, a); |t.readers| == |s.readers| && Work(t) < Work(s)
  {
    var t := OpMove(s, i, a);
    OpIsLocal(s, i, a);
    OpsUpdate(s.ops, i, t.ops[i], WakeCost(s));
    WakingCosts(s.readers, WakeCost(s));
  }

  /** A reader's own action brings it nearer to its return. */
  lemma ReaderDecreases(s: State, i: nat, a: ReadAct)
    requires i in s.readers && ReadEnabled(s, i, a) && !a.Enter?
    ensures var t := ReadMove(s, i, a);
            && i in t.readers && t.readers[i].waker == s.readers[i].waker
            && ReadWork(t.readers[i].pc) < ReadWork(s.readers[i].pc)
  {
  }

  lemma ReadDecreases(s: State, i: nat, a: ReadAct)
    requires i in s.readers && ReadEnabled(s, i, a) && !a.Enter?
    ensures var t := ReadMove(s, i, a); |t.readers| == |s.readers| && Work(t) < Work(s)
  {
    ReadIsLocal(s, i, a);
    ReaderDecreases(s, i, a);
    var r := ReadMove(s, i, a).readers[i];
    ReadersUpdate(s.readers, i, r, WakeCost(s));
    assert ReaderWork(r, WakeCost(s)) < ReaderWork(s.readers[i], WakeCost(s));
  }

  /** So is a waker's. */
  lemma WakerIsLocal(s: State, i: nat, a: WakeAct)
    requires i in s.readers && WakerEnabled(s, i, a)
    ensures var t, wake := WakerMove(s, i, a), WakeCost(s);
            exists r :: && (t.readers == if a == Ring then WakeAll(s.readers[i := r]) else s.readers[i := r])
                        && t.ops == s.ops
                        && ReaderWork(r, wake) + (if a == Ring then wake else 0) < ReaderWork(s.readers[i], wake)
  {
    var w := match a case Rise => Rises case Take => Rings case Ring => Rung case Release => Gone;
    var r := s.readers[i].(waker := w);
    assert ReaderWork(r, WakeCost(s)) < ReaderWork(s.readers[i], WakeCost(s));
  }

  lemma WakerDecreases(s: State, i: nat, a: WakeAct)
    requires i in s.readers && WakerEnabled(s, i, a)
    ensures var t := WakerMove(s, i, a); |t.readers| == |s.readers| && Work(t) < Work(s)
  {
    var t, wake := WakerMove(s, i, a), WakeCost(s);
    WakerIsLocal(s, i, a);
    var r :| (t.readers == if a == Ring then WakeAll(s.readers[i := r]) else s.readers[i := r]) &&
             ReaderWork(r, wake) + (if a == Ring then wake else 0) < ReaderWork(s.readers[i], wake);
    ReadersUpdate(s.readers, i, r, wake);
    WakingCosts(s.readers[i := r], wake);
  }

  // ---------------------------------------------------------------- the theorems

  predicate AllInternal(run: seq<Label>) { forall k :: 0 <= k < |run| ==> Internal(run[k]) }

  lemma StepSettles(s: State, a: Label)
    requires Enabled(s, a) && Internal(a)
    ensures |Apply(s, a).readers| == |s.readers| && Work(Apply(s, a)) < Work(s)
  {
    match a
    case OfOp(i, act) => OpDecreases(s, i, act);
    case OfReader(i, act) => ReadDecreases(s, i, act);
    case OfWaker(i, act) => WakerDecreases(s, i, act);
  }

  lemma {:induction false} RunsAreShort(s: State, run: seq<Label>, t: State)
    requires AllInternal(run) && Reaches(s, run, t)
    ensures |run| + Work(t) <= Work(s)
    decreases |run|
  {
    if run != [] {
      StepSettles(s, run[0]);
      RunsAreShort(Apply(s, run[0]), run[1..], t);
    }
  }

  lemma OpsBound(ops: map<nat, OpPc>, wake: nat, d: nat)
    requires d == wake + 9
    ensures Sum(OpWorks(ops, wake)) <= d * |ops|
  {
    SumBound(OpWorks(ops, wake), d);
    assert OpWorks(ops, wake).Keys == ops.Keys;
  }

  lemma ReadersBound(readers: map<nat, Reader>, wake: nat, d: nat)
    requires d == wake + 9
    ensures Sum(ReaderWorks(readers, wake)) <= d * |readers|
  {
    SumBound(ReaderWorks(readers, wake), d);
    assert ReaderWorks(readers, wake).Keys == readers.Keys;
  }

  lemma WorkBound(s: State)
    ensures Work(s) <= (|s.ops| + |s.readers|) * (5 * |s.readers| + 9)
  {
    var wake := WakeCost(s);
    OpsBound(s.ops, wake, wake + 9);
    ReadersBound(s.readers, wake, wake + 9);
    Distribute(|s.ops|, |s.readers|, wake + 9);
  }

  lemma Distribute(a: nat, b: nat, d: nat)
    ensures d * a + d * b == (a + b) * d
  {
  }

  /** With `c` calls and `r` readers there are at most `(c + r) (5r + 9)` actions before new calls,
      readers or cancellations are needed, on every schedule, fair or not. When no action is
      left, every call has returned; and a reader is still in Read only if it has delivered all
      of an open buffer and its context is alive. */
  lemma CallsSettle(before: seq<Label>, s: State, run: seq<Label>, t: State)
    requires Reaches(Init(), before, s) && AllInternal(run) && Reaches(s, run, t)
    ensures |run| <= (|s.ops| + |s.readers|) * (5 * |s.readers| + 9)
    ensures (forall a :: Internal(a) ==> !Enabled(t, a)) ==>
              && (forall i :: i in t.ops ==> t.ops[i].Returned?)
              && (forall i :: i in t.readers ==> Rightful(t, t.readers[i]))
  {
    RunsAreShort(s, run, t);
    WorkBound(s);
    if forall a :: Internal(a) ==> !Enabled(t, a) {
      Concat(Init(), before, s, run, t);
      OnlyRightfulSleepers(before + run, t);
    }
  }

  /** So after a close, or the end of its context, a reader that is inside Read returns. */
  lemma ReadersReturnAfterClose(before: seq<Label>, s: State, run: seq<Label>, t: State, i: nat)
    requires Reaches(Init(), before, s) && AllInternal(run) && Reaches(s, run, t)
    requires i in s.readers && (s.closed || s.readers[i].ctxDone)
    requires forall a :: Internal(a) ==> !Enabled(t, a)
    ensures i in t.readers && (t.readers[i].pc.Outside? || t.readers[i].pc.Stopped?)
  {
    CallsSettle(before, s, run, t);
    StaysOver(s, run, t, i);
  }

  lemma {:induction false} StaysOver(s: State, run: seq<Label>, t: State, i: nat)
    requires Reaches(s, run, t) && i in s.readers
    ensures i in t.readers && (s.closed ==> t.closed)
    ensures s.readers[i].ctxDone ==> t.readers[i].ctxDone
    decreases |run|
  {
    if run != [] {
      StepGrows(s, run[0]);
      StepStaysOver(s, run[0], i);
      StaysOver(Apply(s, run[0]), run[1..], t, i);
    }
  }

  lemma StepStaysOver(s: State, a: Label, i: nat)
    requires Enabled(s, a) && i in s.readers
    ensures i in Apply(s, a).readers && (s.readers[i].ctxDone ==> Apply(s, a).readers[i].ctxDone)
  {
    match a
    case OfOp(k, act) =>
    case OfReader(k, act) =>
    case OfWaker(k, act) =>
    case _ =>
  }

  lemma {:induction false} Concat(s: State, run: seq<Label>, t: State, more: seq<Label>, u: State)
    requires Reaches(s, run, t) && Reaches(t, more, u)
    ensures Reaches(s, run + more, u)
    decreases |run|
  {
    if run == [] {
      assert run + more == more;
    } else {
      assert (run + more)[1..] == run[1..] + more;
      Concat(Apply(s, run[0]), run[1..], t, more, u);
    }
  }
}
