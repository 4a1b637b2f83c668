/** Two communicators, a runner and a worker, joined by two streams: the capability handshake
    with the sends of other goroutines in between (internal/workerproto/api.go). */
module Handshake {
  import opened Packets
  import Json

  /** How far `Run` has come: the writer replaced, the welcome sent, the packets queued before
      `Run` copied, the stream ended by a packet that is refused. */
  datatype Stage = NotRun | Swapped | Greeted | Serving | Ended

  /** `handlers` are the types for which the application has added a handler; it replaces a
      built-in one. `queued` is what was sent before `Run`. History: what was sent while the
      writer was replaced but nothing greeted, between the greeting and the copy, and after it. */
  datatype Party = Party(
    local: set<Text>, remote: set<Text>, handlers: set<Text>, stage: Stage,
    queued: seq<Message>, early: seq<Message>, mid: seq<Message>, late: seq<Message>,
    out: seq<Message>, read: nat)

  /** `out` of each party is the whole stream to the other, which has read `read` of it. */
  datatype State = State(runner: Party, worker: Party)

  datatype Side = Runner | Worker

  /** `accepts` is what a handler of the application makes of the packet, and `reply` the order
      in which a hello would list the capabilities. */
  datatype Action =
    | AddCapability(cap: Text) | AddHandler(kind: Text)
    | Send(body: seq<Json.Member>)
    | Swap | Greet(caps: seq<Text>) | Copy
    | Receive(reply: seq<Text>, accepts: bool)

  datatype Label = Label(side: Side, act: Action)

  function Me(s: State, side: Side): Party { if side.Runner? then s.runner else s.worker }

  function Peer(s: State, side: Side): Party { if side.Runner? then s.worker else s.runner }

  function Set(s: State, side: Side, p: Party): State {
    if side.Runner? then s.(runner := p) else s.(worker := p)
  }

  /** The keys of a map, in any order. */
  predicate Lists(caps: seq<Text>, all: set<Text>) {
    |caps| == |all| && Members(caps) == all
  }

  function Members(caps: seq<Text>): (r: set<Text>)
    ensures forall c :: c in r <==> c in caps
  {
    set c | c in caps
  }

  function Fresh(): Party { Party({}, {}, {}, NotRun, [], [], [], [], [], 0) }

  function Init(): State { State(Fresh(), Fresh()) }

  /** What a greeting made by `Run` or `onWelcome` carries; see Packets.GreetingMeans. */
  function Own(kind: Text, caps: seq<Text>): Message { Greeting(kind, CleanAll(caps)) }

  /** A packet goes to the writer of the moment. */
  function Sent(p: Party, m: Message): Party {
    match p.stage
    case NotRun => p.(queued := p.queued + [m])
    case Swapped => p.(early := p.early + [m], out := p.out + [m])
    case Greeted => p.(mid := p.mid + [m], out := p.out + [m])
    case _ => p.(late := p.late + [m], out := p.out + [m])
  }

  predicate Enabled(s: State, l: Label) {
    var p := Me(s, l.side);
    match l.act
    case AddCapability(_) => p.stage.NotRun?
    case AddHandler(_) => p.stage.NotRun?
    case Send(_) => true
    case Swap => p.stage.NotRun?
    case Greet(caps) => p.stage.Swapped? && l.side.Runner? && Lists(caps, p.local)
    case Copy => if l.side.Runner? then p.stage.Greeted? else p.stage.Swapped?
    case Receive(reply, _) =>
      p.stage.Serving? && p.read < |Peer(s, l.side).out| && Lists(reply, p.local)
  }

  /** `handle`. A packet is dispatched by its type alone; without a handler it ends the run. */
  function Handle(p: Party, m: Message, reply: seq<Text>, accepts: bool): Party {
    match m
    case Untyped => p
    case App(kind, _) => if kind in p.handlers && accepts then p else p.(stage := Ended)
    case Malformed(kind) => if kind in p.handlers && accepts then p else p.(stage := Ended)
    case Welcome(caps) =>
      if WELCOME in p.handlers then (if accepts then p else p.(stage := Ended))
      else Sent(p.(remote := p.remote + Members(caps)), Own(HELLO, reply))
    case Hello(caps) =>
      if HELLO in p.handlers then (if accepts then p else p.(stage := Ended))
      else p.(remote := p.remote + Members(caps))
  }

  function Step(s: State, side: Side, a: Action): Party
    requires Enabled(s, Label(side, a))
  {
    var p := Me(s, side);
    match a
    case AddCapability(c) => p.(local := p.local + {c})
    case AddHandler(kind) => p.(handlers := p.handlers + {kind})
    case Send(body) => Sent(p, Carried(body))
    case Swap => p.(stage := Swapped)
    case Greet(caps) => p.(stage := Greeted, out := p.out + [Own(WELCOME, caps)])
    case Copy => p.(stage := Serving, out := p.out + p.queued)
    case Receive(reply, accepts) =>
      Handle(p.(read := p.read + 1), Peer(s, side).out[p.read], reply, accepts)
  }

  function Apply(s: State, l: Label): State
    requires Enabled(s, l)
  {
    Set(s, l.side, Step(s, l.side, l.act))
  }

  predicate Reaches(s: State, run: seq<Label>, t: State)
    decreases |run|
  {
    if run == [] then s == t
    else Enabled(s, run[0]) && Reaches(Apply(s, run[0]), run[1..], t)
  }

  predicate HasCapability(p: Party, c: Text) { c in p.local && c in p.remote }

  // --------------------------------------------------- what each side has learnt

  /** The capabilities that a packet teaches a reader with these handlers. */
  function Teaches(m: Message, handlers: set<Text>): set<Text> {
    match m
    case Welcome(caps) => if WELCOME in handlers then {} else Members(caps)
    case Hello(caps) => if HELLO in handlers then {} else Members(caps)
    case _ => {}
  }

  /** All that the first `read` packets of a stream teach. */
  function Taught(out: seq<Message>, read: nat, handlers: set<Text>): set<Text>
    requires read <= |out|
  {
    if read == 0 then {} else Taught(out, read - 1, handlers) + Teaches(out[read - 1], handlers)
  }

  /** `me` has read from `peer`, once it serves, and knows what that teaches. */
  predicate Knows(me: Party, peer: Party) {
    && me.read <= |peer.out|
    && (me.stage.NotRun? || me.stage.Swapped? || me.stage.Greeted? ==> me.read == 0)
    && me.remote == Taught(peer.out, me.read, me.handlers)
  }

  /** The stream in the order in which it came about. */
  predicate RunnerStream(p: Party) {
    match p.stage
    case NotRun => p.out == [] && p.early == [] && p.mid == [] && p.late == []
    case Swapped => p.out == p.early && p.mid == [] && p.late == []
    case Greeted =>
      p.late == [] && |p.out| > |p.early| && p.out == p.early + [p.out[|p.early|]] + p.mid
    case _ =>
      |p.out| > |p.early| && p.out == p.early + [p.out[|p.early|]] + p.mid + p.queued + p.late
  }

  /** After the early sends comes the runner's own welcome. */
  ghost predicate RunnerGreets(p: Party) {
    !p.stage.NotRun? && !p.stage.Swapped? ==>
      |p.out| > |p.early| && OwnWelcome(p.out[|p.early|], p.local)
  }

  ghost predicate OwnWelcome(m: Message, local: set<Text>) {
    exists caps :: Lists(caps, local) && m == Own(WELCOME, caps)
  }

  predicate WorkerStream(p: Party) {
    match p.stage
    case NotRun => p.out == [] && p.early == [] && p.mid == [] && p.late == []
    case Swapped => p.out == p.early && p.mid == [] && p.late == []
    case Greeted => false
    case _ => p.mid == [] && p.out == p.early + p.queued + p.late
  }

  /** What every schedule keeps. */
  ghost predicate Inv(s: State) {
    && Knows(s.runner, s.worker) && Knows(s.worker, s.runner)
    && RunnerStream(s.runner) && RunnerGreets(s.runner) && WorkerStream(s.worker)
  }

  // ------------------------------------------------------------ orderly schedules

  /** The application leaves the types of the greetings alone, and its capabilities are text. */
  predicate OrderlyAct(a: Action) {
    match a
    case AddCapability(c) => Json.ValidText(c)
    case AddHandler(kind) => !Reserved(kind)
    case Send(body) => Plain(Carried(body))
    case _ => true
  }

  predicate Orderly(run: seq<Label>) { forall i :: 0 <= i < |run| ==> OrderlyAct(run[i].act) }

  /** A weaker demand: whatever greeting the application sends names only capabilities of the
      side that sends it. */
  predicate TruthfulAct(p: Party, a: Action) {
    match a
    case AddCapability(c) => Json.ValidText(c)
    case Send(body) => Truth(Carried(body), p.local)
    case _ => true
  }

  predicate Truth(m: Message, local: set<Text>) {
    m.Welcome? || m.Hello? ==> Members(m.caps) <= local
  }

  predicate Truthful(s: State, run: seq<Label>)
    decreases |run|
  {
    run == [] || !Enabled(s, run[0]) ||
    (TruthfulAct(Me(s, run[0].side), run[0].act) && Truthful(Apply(s, run[0]), run[1..]))
  }
}
