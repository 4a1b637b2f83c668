/** The subscribable buffer as a monitor: a mutex, a condition variable, any number of
    goroutines that write, close and measure, and any number of readers, each with a context
    and a waker goroutine (internal/pubsubbuffer/pubsubbuffer.go). */
module Broadcast {
  import opened Bytes

  datatype Call = Write(src: seq<byte>) | Close | Len

  datatype Result = Wrote(n: nat) | Rejected | ClosedOk | Length(n: nat)

  /** A goroutine in Write, Close or Len: it holds the mutex from `Holds` to `Leaves`, and
      calls Broadcast at `Notifies`. */
  datatype OpPc =
    | Wants(call: Call) | Holds(call: Call) | Notifies(res: Result) | Leaves(res: Result)
    | Returned(res: Result)

  datatype ReadResult = Data(bytes: seq<byte>) | EOF | Cancelled

  /** A reader holds the mutex at `Checks` (about to look at its context), `Looks` (about to
      look at the buffer) and `Quits`. `Gives` is the result in the hands of the consumer. */
  datatype ReadPc =
    | Outside
    | Enters(len: nat) | Checks(len: nat) | Looks(len: nat)
    | Parked(len: nat) | Woken(len: nat)
    | Quits(res: ReadResult) | Gives(res: ReadResult)
    | Stopped(res: ReadResult)

  /** The goroutine started by Subscribe. */
  datatype WakerPc = Sleeps | Rises | Rings | Rung | Gone

  /** `delivered` is what Read has returned so far, `out` what the consumer has passed on. */
  datatype Reader = Reader(
    pc: ReadPc, ctxDone: bool, waker: WakerPc, offset: nat, delivered: seq<byte>, out: seq<byte>)

  datatype Holder = Free | ByOp(id: nat) | ByReader(id: nat) | ByWaker(id: nat)

  datatype State = State(
    contents: seq<byte>, closed: bool, lock: Holder,
    ops: map<nat, OpPc>, readers: map<nat, Reader>,
    accepted: seq<seq<byte>>)    // history: the arguments of the successful writes

  datatype OpAct = Lock | Body | Notify | Unlock

  datatype ReadAct =
    | Enter(len: nat) | Acquire | CheckContext | Look | Quit | Forward(ok: bool)

  datatype WakeAct = Rise | Take | Ring | Release

  datatype Label =
    | Begin(op: nat, call: Call)
    | OfOp(op: nat, act: OpAct)
    | Subscribe(id: nat)
    | Cancel(id: nat)
    | OfReader(id: nat, read: ReadAct)
    | OfWaker(id: nat, wake: WakeAct)

  // ----------------------------------------------------- the critical sections

  /** What a reader with its context alive finds in the buffer; None means that it waits. */
  datatype Found = Nothing | Found(res: ReadResult)

  function Peek(contents: seq<byte>, closed: bool, offset: nat, len: nat): Found
    requires offset <= |contents|
  {
    var remainder := |contents| - offset;
    if remainder > 0 then
      Found(Data(contents[offset..offset + if remainder < len then remainder else len]))
    else if closed then Found(EOF)
    else Nothing
  }

  function Taken(res: ReadResult): seq<byte> {
    if res.Data? then res.bytes else []
  }

  // ------------------------------------------------------ the transition system

  function Init(): State { State([], false, Free, map[], map[], []) }

  function OpState(s: State, i: nat, pc: OpPc): State { s.(ops := s.ops[i := pc]) }

  function Wake(r: Reader): Reader {
    if r.pc.Parked? then r.(pc := Woken(r.pc.len)) else r
  }

  /** cond.Broadcast. */
  function WakeAll(readers: map<nat, Reader>): map<nat, Reader> {
    map i | i in readers :: Wake(readers[i])
  }

  predicate OpEnabled(s: State, i: nat, a: OpAct)
    requires i in s.ops
  {
    var pc := s.ops[i];
    match a
    case Lock => pc.Wants? && s.lock == Free
    case Body => pc.Holds?
    case Notify => pc.Notifies?
    case Unlock => pc.Leaves?
  }

  function OpBody(s: State, i: nat): State
    requires i in s.ops && s.ops[i].Holds?
  {
    match s.ops[i].call
    case Write(src) =>
      if s.closed then OpState(s, i, Leaves(Rejected))
      else OpState(s, i, Notifies(Wrote(|src|))).(
             contents := s.contents + src, accepted := s.accepted + [src])
    case Close => OpState(s, i, Notifies(ClosedOk)).(closed := true)
    case Len => OpState(s, i, Leaves(Length(|s.contents|)))
  }

  function OpMove(s: State, i: nat, a: OpAct): State
    requires i in s.ops && OpEnabled(s, i, a)
  {
    match a
    case Lock => OpState(s, i, Holds(s.ops[i].call)).(lock := ByOp(i))
    case Body => OpBody(s, i)
    case Notify => OpState(s, i, Leaves(s.ops[i].res)).(readers := WakeAll(s.readers))
    case Unlock => OpState(s, i, Returned(s.ops[i].res)).(lock := Free)
  }

  predicate ReadEnabled(s: State, i: nat, a: ReadAct)
    requires i in s.readers
  {
    var r := s.readers[i];
    match a
    case Enter(_) => r.pc.Outside?
    case Acquire => (r.pc.Enters? || r.pc.Woken?) && s.lock == Free
    case CheckContext => r.pc.Checks?
    case Look => r.pc.Looks? && r.offset <= |s.contents|
    case Quit => r.pc.Quits?
    case Forward(_) => r.pc.Gives?
  }

  function SetReader(s: State, i: nat, r: Reader): State { s.(readers := s.readers[i := r]) }

  function LookMove(s: State, i: nat): State
    requires i in s.readers && ReadEnabled(s, i, Look)
  {
    var r := s.readers[i];
    match Peek(s.contents, s.closed, r.offset, r.pc.len)
    case Nothing => SetReader(s, i, r.(pc := Parked(r.pc.len))).(lock := Free)
    case Found(res) =>
      SetReader(s, i, r.(pc := Quits(res), offset := r.offset + |Taken(res)|,
                         delivered := r.delivered + Taken(res)))
  }

  function ReadMove(s: State, i: nat, a: ReadAct): State
    requires i in s.readers && ReadEnabled(s, i, a)
  {
    var r := s.readers[i];
    match a
    case Enter(len) => SetReader(s, i, r.(pc := Enters(len)))
    case Acquire => SetReader(s, i, r.(pc := Checks(r.pc.len))).(lock := ByReader(i))
    case CheckContext =>
      SetReader(s, i, r.(pc := if r.ctxDone then Quits(Cancelled) else Looks(r.pc.len)))
    case Look => LookMove(s, i)
    case Quit => SetReader(s, i, r.(pc := Gives(r.pc.res))).(lock := Free)
    case Forward(ok) =>
      if !r.pc.res.Data? then SetReader(s, i, r.(pc := Stopped(r.pc.res)))
      else if ok then SetReader(s, i, r.(pc := Outside, out := r.out + r.pc.res.bytes))
      else SetReader(s, i, r.(pc := Stopped(r.pc.res)))
  }

  predicate WakerEnabled(s: State, i: nat, a: WakeAct)
    requires i in s.readers
  {
    var w := s.readers[i].waker;
    match a
    case Rise => w.Sleeps? && s.readers[i].ctxDone
    case Take => w.Rises? && s.lock == Free
    case Ring => w.Rings?
    case Release => w.Rung?
  }

  function WakerMove(s: State, i: nat, a: WakeAct): State
    requires i in s.readers && WakerEnabled(s, i, a)
  {
    var r := s.readers[i];
    match a
    case Rise => SetReader(s, i, r.(waker := Rises))
    case Take => SetReader(s, i, r.(waker := Rings)).(lock := ByWaker(i))
    case Ring => s.(readers := WakeAll(s.readers[i := r.(waker := Rung)]))
    case Release => SetReader(s, i, r.(waker := Gone)).(lock := Free)
  }

  predicate Enabled(s: State, a: Label) {
    match a
    case Begin(i, _) => i !in s.ops
    case OfOp(i, act) => i in s.ops && OpEnabled(s, i, act)
    case Subscribe(i) => i !in s.readers
    case Cancel(i) => i in s.readers && !s.readers[i].ctxDone
    case OfReader(i, act) => i in s.readers && ReadEnabled(s, i, act)
    case OfWaker(i, act) => i in s.readers && WakerEnabled(s, i, act)
  }

  function Apply(s: State, a: Label): State
    requires Enabled(s, a)
  {
    match a
    case Begin(i, call) => OpState(s, i, Wants(call))
    case OfOp(i, act) => OpMove(s, i, act)
    case Subscribe(i) => SetReader(s, i, Reader(Outside, false, Sleeps, 0, [], []))
    case Cancel(i) => SetReader(s, i, s.readers[i].(ctxDone := true))
    case OfReader(i, act) => ReadMove(s, i, act)
    case OfWaker(i, act) => WakerMove(s, i, act)
  }

  predicate Reaches(s: State, run: seq<Label>, t: State)
    decreases |run|
  {
    if run == [] then s == t
    else Enabled(s, run[0]) && Reaches(Apply(s, run[0]), run[1..], t)
  }
}
