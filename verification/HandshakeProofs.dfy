/** What the two sides of the handshake know of each other, on every schedule and on orderly
    ones, and the order of the runner's stream. */
module HandshakeProofs {
  import opened Packets
  import opened Handshake
  import Json

  // ------------------------------------------------------------- every schedule

  lemma {:induction false} TaughtSame(out: seq<Message>, more: seq<Message>, read: nat, handlers: set<Text>)
    requires read <= |out| && out <= more
    ensures Taught(more, read, handlers) == Taught(out, read, handlers)
  {
    if read > 0 {
      assert more[read - 1] == out[read - 1];
      TaughtSame(out, more, read - 1, handlers);
    }
  }

  /** A side says more and takes nothing back; its own sets are fixed once it runs. */
  lemma PartyGrows(s: State, side: Side, a: Action)
    requires Enabled(s, Label(side, a))
    ensures var p, q := Me(s, side), Step(s, side, a);
            p.out <= q.out && (p.stage.NotRun? || (q.local == p.local && q.handlers == p.handlers))
  {
  }

  /** What a side itself learns with an action. */
  lemma PartyLearns(s: State, side: Side, a: Action)
    requires Enabled(s, Label(side, a))
    ensures var p, q := Me(s, side), Step(s, side, a);
            if !a.Receive? then q.read == p.read && q.remote == p.remote
            else
              q.handlers == p.handlers && q.read == p.read + 1 &&
              q.remote == p.remote + Teaches(Peer(s, side).out[p.read], p.handlers)
  {
    if a.Receive? {
      match Peer(s, side).out[Me(s, side).read]
      case Welcome(_) =>
      case Hello(_) =>
      case _ =>
    }
  }

  lemma StageOrder(s: State, side: Side, a: Action)
    requires Enabled(s, Label(side, a))
    ensures var p, q := Me(s, side), Step(s, side, a);
            && (a.Receive? ==> q.stage.Serving? || q.stage.Ended?)
            && (q.stage.NotRun? ==> p.stage.NotRun?)
            && (q.stage.Swapped? ==> p.stage.NotRun? || p.stage.Swapped?)
            && (q.stage.Greeted? ==> p.stage.Swapped? || p.stage.Greeted?)
  {
  }

  lemma StepKeepsOwn(s: State, side: Side, a: Action)
    requires Knows(Me(s, side), Peer(s, side)) && Enabled(s, Label(side, a))
    ensures Knows(Step(s, side, a), Peer(s, side))
  {
    PartyGrows(s, side, a);
    PartyLearns(s, side, a);
    StageOrder(s, side, a);
  }

  lemma StepKeepsPeer(s: State, side: Side, a: Action)
    requires Knows(Peer(s, side), Me(s, side)) && Enabled(s, Label(side, a))
    ensures Knows(Peer(s, side), Step(s, side, a))
  {
    PartyGrows(s, side, a);
    TaughtSame(Me(s, side).out, Step(s, side, a).out, Peer(s, side).read, Peer(s, side).handlers);
  }

  lemma RunnerSendsOn(p: Party, m: Message)
    requires RunnerStream(p)
    ensures RunnerStream(Sent(p, m))
  {
  }

  lemma WorkerSendsOn(p: Party, m: Message)
    requires WorkerStream(p)
    ensures WorkerStream(Sent(p, m))
  {
  }

  /** Receiving a packet sends at most a reply. */
  lemma HandleSends(p: Party, m: Message, reply: seq<Text>, accepts: bool)
    requires p.stage.Serving?
    ensures var q := Handle(p, m, reply, accepts);
            && (q.stage.Serving? || q.stage.Ended?) && q.local == p.local
            && q.queued == p.queued && q.early == p.early && q.mid == p.mid
            && ((q.out == p.out && q.late == p.late) ||
                (m.Welcome? && exists sent ::
                   sent == Own(HELLO, reply) &&
                   q.out == p.out + [sent] && q.late == p.late + [sent]))
  {
    match m
    case Welcome(_) =>
    case Hello(_) =>
    case _ =>
  }

  lemma RunnerKeepsStream(s: State, a: Action)
    requires RunnerStream(s.runner) && Enabled(s, Label(Runner, a))
    ensures RunnerStream(Step(s, Runner, a))
  {
    var p := s.runner;
    match a
    case Send(body) => RunnerSendsOn(p, Carried(body));
    case Receive(reply, accepts) =>
      HandleSends(p.(read := p.read + 1), s.worker.out[p.read], reply, accepts);
    case _ =>
  }

  lemma WorkerKeepsStream(s: State, a: Action)
    requires WorkerStream(s.worker) && Enabled(s, Label(Worker, a))
    ensures WorkerStream(Step(s, Worker, a))
  {
    var p := s.worker;
    match a
    case Send(body) => WorkerSendsOn(p, Carried(body));
    case Receive(reply, accepts) =>
      HandleSends(p.(read := p.read + 1), s.runner.out[p.read], reply, accepts);
    case _ =>
  }

  lemma EarlyIsFixed(s: State, a: Action)
    requires Enabled(s, Label(Runner, a)) && !s.runner.stage.NotRun? && !s.runner.stage.Swapped?
    ensures Step(s, Runner, a).early == s.runner.early
  {
  }

  lemma RunnerKeepsGreets(s: State, a: Action)
    requires RunnerStream(s.runner) && RunnerGreets(s.runner) && Enabled(s, Label(Runner, a))
    ensures RunnerGreets(Step(s, Runner, a))
  {
    var p, q := s.runner, Step(s, Runner, a);
    PartyGrows(s, Runner, a);
    StageOrder(s, Runner, a);
    if a.Greet? {
      assert OwnWelcome(q.out[|q.early|], q.local);
    } else if !q.stage.NotRun? && !q.stage.Swapped? {
      EarlyIsFixed(s, a);
      assert q.out[|p.early|] == p.out[|p.early|];
    }
  }

  lemma StepKeepsInv(s: State, l: Label)
    requires Inv(s) && Enabled(s, l)
    ensures Inv(Apply(s, l))
  {
    StepKeepsOwn(s, l.side, l.act);
    StepKeepsPeer(s, l.side, l.act);
    if l.side.Runner? {
      RunnerKeepsStream(s, l.act);
      RunnerKeepsGreets(s, l.act);
    } else {
      WorkerKeepsStream(s, l.act);
    }
  }

  lemma {:induction false} EveryRunKeepsInv(s: State, run: seq<Label>, t: State)
    requires Inv(s) && Reaches(s, run, t)
    ensures Inv(t)
    decreases |run|
  {
    if run != [] {
      StepKeepsInv(s, run[0]);
      EveryRunKeepsInv(Apply(s, run[0]), run[1..], t);
    }
  }

  lemma {:induction false} TaughtMeans(out: seq<Message>, read: nat, handlers: set<Text>, c: Text)
    requires read <= |out|
    ensures c in Taught(out, read, handlers) <==>
            exists i :: 0 <= i < read && c in Teaches(out[i], handlers)
  {
    if read > 0 {
      TaughtMeans(out, read - 1, handlers, c);
      if c in Teaches(out[read - 1], handlers) {
        assert read - 1 < read;
      }
    }
  }

  /** `peer` has told `me` of the capability, in a greeting that `me` has read and that it has
      left to the built-in handlers. */
  predicate WasTold(me: Party, peer: Party, c: Text)
    requires me.read <= |peer.out|
  {
    exists i :: 0 <= i < me.read && c in Teaches(peer.out[i], me.handlers)
  }

  /** On every schedule, whatever the applications send and handle: a side answers that it has a
      capability exactly when it is its own and it was told of it. */
  lemma AffirmedExactly(run: seq<Label>, t: State, c: Text)
    requires Reaches(Init(), run, t)
    ensures t.worker.read <= |t.runner.out| && t.runner.read <= |t.worker.out|
    ensures HasCapability(t.worker, c) <==> c in t.worker.local && WasTold(t.worker, t.runner, c)
    ensures HasCapability(t.runner, c) <==> c in t.runner.local && WasTold(t.runner, t.worker, c)
  {
    EveryRunKeepsInv(Init(), run, t);
    TaughtMeans(t.runner.out, t.worker.read, t.worker.handlers, c);
    TaughtMeans(t.worker.out, t.runner.read, t.runner.handlers, c);
  }

  /** Once the runner serves, its stream is what was sent while the writer was being replaced,
      its welcome, what was sent before the copy, the packets queued before `Run`, and the
      rest. So it begins with its welcome when nothing was sent in the first gap, and otherwise
      with what was. */
  lemma RunnerStreamOrder(run: seq<Label>, t: State)
    requires Reaches(Init(), run, t) && (t.runner.stage.Serving? || t.runner.stage.Ended?)
    ensures exists welcome ::
              OwnWelcome(welcome, t.runner.local) &&
              t.runner.out == t.runner.early + [welcome] + t.runner.mid + t.runner.queued + t.runner.late
    ensures if t.runner.early == [] then OwnWelcome(t.runner.out[0], t.runner.local)
            else t.runner.out[0] == t.runner.early[0]
    ensures Orderly(run) ==> (t.runner.out[0].Welcome? <==> t.runner.early == [])
  {
    EveryRunKeepsInv(Init(), run, t);
    if Orderly(run) {
      EveryRunKeepsOrder(Init(), run, t);
      var caps :| Lists(caps, t.runner.local) && t.runner.out[|t.runner.early|] == Own(WELCOME, caps);
      OwnGreeting(WELCOME, caps, t.runner.local);
    }
  }

  // ----------------------------------------------------------- truthful schedules

  predicate AllText(local: set<Text>) { forall c :: c in local ==> Json.ValidText(c) }

  predicate Told(ms: seq<Message>, local: set<Text>) {
    forall i :: 0 <= i < |ms| ==> Truth(ms[i], local)
  }

  predicate Honest(p: Party) {
    AllText(p.local) && Told(p.out, p.local) && Told(p.queued, p.local)
  }

  /** A side's own greeting lists its own capabilities. */
  lemma OwnGreeting(kind: Text, caps: seq<Text>, local: set<Text>)
    requires Reserved(kind) && Lists(caps, local) && AllText(local)
    ensures Own(kind, caps) == Greeting(kind, caps) && Members(caps) == local
  {
    assert forall i :: 0 <= i < |caps| ==> caps[i] in Members(caps);
    ValidAreClean(caps);
  }

  lemma SentIsHonest(p: Party, m: Message)
    requires Honest(p) && Truth(m, p.local)
    ensures Honest(Sent(p, m))
  {
  }

  lemma StepKeepsHonest(s: State, side: Side, a: Action)
    requires Honest(Me(s, side)) && Enabled(s, Label(side, a)) && TruthfulAct(Me(s, side), a)
    ensures Honest(Step(s, side, a))
  {
    var p := Me(s, side);
    match a
    case Send(body) => SentIsHonest(p, Carried(body));
    case Greet(caps) => OwnGreeting(WELCOME, caps, p.local);
    case Receive(reply, accepts) =>
      OwnGreeting(HELLO, reply, p.local);
      HandleSends(p.(read := p.read + 1), Peer(s, side).out[p.read], reply, accepts);
    case _ =>
  }

  lemma {:induction false} EveryRunKeepsHonest(s: State, run: seq<Label>, t: State)
    requires Honest(s.runner) && Honest(s.worker) && Truthful(s, run) && Reaches(s, run, t)
    ensures Honest(t.runner) && Honest(t.worker)
    decreases |run|
  {
    if run != [] {
      StepKeepsHonest(s, run[0].side, run[0].act);
      EveryRunKeepsHonest(Apply(s, run[0]), run[1..], t);
    }
  }

  /** As long as no application sends a greeting that names a capability its side does not have,
      an affirmed capability is in both local sets, whatever handlers there are. */
  lemma AffirmedIsCommon(run: seq<Label>, t: State, c: Text)
    requires Reaches(Init(), run, t) && Truthful(Init(), run)
    requires HasCapability(t.runner, c) || HasCapability(t.worker, c)
    ensures c in t.runner.local && c in t.worker.local
  {
    AffirmedExactly(run, t, c);
    EveryRunKeepsHonest(Init(), run, t);
    if HasCapability(t.worker, c) {
      var i :| 0 <= i < t.worker.read && c in Teaches(t.runner.out[i], t.worker.handlers);
      assert Truth(t.runner.out[i], t.runner.local);
    } else {
      var i :| 0 <= i < t.runner.read && c in Teaches(t.worker.out[i], t.runner.handlers);
      assert Truth(t.worker.out[i], t.worker.local);
    }
  }

  // ------------------------------------------------------------ orderly schedules

  predicate AllPlain(ms: seq<Message>) { forall i :: 0 <= i < |ms| ==> Plain(ms[i]) }

  /** The runner says nothing but its welcome, and packets of the application. */
  predicate RunnerSays(m: Message, local: set<Text>) {
    Plain(m) || (m.Welcome? && Members(m.caps) == local)
  }

  predicate WorkerSays(m: Message, local: set<Text>) {
    Plain(m) || (m.Hello? && Members(m.caps) == local)
  }

  predicate BuiltIn(p: Party) { WELCOME !in p.handlers && HELLO !in p.handlers }

  predicate RunnerTalk(p: Party) {
    && AllText(p.local) && BuiltIn(p) && AllPlain(p.queued) && AllPlain(p.early)
    && (forall i :: 0 <= i < |p.out| ==> RunnerSays(p.out[i], p.local))
    && (p.stage.NotRun? ==> p.out == [])
  }

  predicate WorkerTalk(p: Party) {
    && AllText(p.local) && BuiltIn(p) && AllPlain(p.queued)
    && (forall i :: 0 <= i < |p.out| ==> WorkerSays(p.out[i], p.local))
    && (p.stage.NotRun? ==> p.out == [])
  }

  predicate Heard(out: seq<Message>, read: nat, kind: Text)
    requires read <= |out|
  {
    exists i :: 0 <= i < read && (if kind == WELCOME then out[i].Welcome? else out[i].Hello?)
  }

  predicate HeardWelcome(s: State)
    requires s.worker.read <= |s.runner.out|
  {
    Heard(s.runner.out, s.worker.read, WELCOME)
  }

  predicate HeardHello(s: State)
    requires s.runner.read <= |s.worker.out|
  {
    Heard(s.worker.out, s.runner.read, HELLO)
  }

  /** The worker has said hello exactly if it has read the welcome. */
  predicate Answers(s: State) {
    s.worker.read <= |s.runner.out| &&
    (Heard(s.worker.out, |s.worker.out|, HELLO) <==> HeardWelcome(s))
  }

  predicate OrderInv(s: State) {
    && RunnerTalk(s.runner) && WorkerTalk(s.worker) && Answers(s)
    && s.runner.read <= |s.worker.out|
  }

  lemma RunnerSends(p: Party, m: Message)
    requires RunnerTalk(p) && Plain(m)
    ensures RunnerTalk(Sent(p, m))
  {
  }

  lemma WorkerSends(p: Party, m: Message)
    requires WorkerTalk(p) && WorkerSays(m, p.local) && (Plain(m) || !p.stage.NotRun?)
    ensures WorkerTalk(Sent(p, m))
  {
  }

  lemma RunnerKeepsTalk(s: State, a: Action)
    requires OrderInv(s) && Enabled(s, Label(Runner, a)) && OrderlyAct(a)
    ensures RunnerTalk(Step(s, Runner, a))
  {
    var p := s.runner;
    match a
    case Send(body) => RunnerSends(p, Carried(body));
    case Greet(caps) => OwnGreeting(WELCOME, caps, p.local);
    case Receive(reply, accepts) => assert WorkerSays(s.worker.out[p.read], s.worker.local);
    case _ =>
  }

  lemma WorkerKeepsTalk(s: State, a: Action)
    requires OrderInv(s) && Enabled(s, Label(Worker, a)) && OrderlyAct(a)
    ensures WorkerTalk(Step(s, Worker, a))
  {
    var p := s.worker;
    match a
    case Send(body) => WorkerSends(p, Carried(body));
    case Receive(reply, accepts) =>
      var m := s.runner.out[p.read];
      assert RunnerSays(m, s.runner.local);
      OwnGreeting(HELLO, reply, p.local);
      if m.Welcome? {
        WorkerSends(p.(read := p.read + 1, remote := p.remote + Members(m.caps)), Hello(reply));
      }
    case _ =>
  }

  lemma HeardNext(out: seq<Message>, read: nat, kind: Text)
    requires read < |out|
    ensures Heard(out, read + 1, kind) <==>
            Heard(out, read, kind) || (if kind == WELCOME then out[read].Welcome? else out[read].Hello?)
  {
    if Heard(out, read, kind) {
      var i :| 0 <= i < read && (if kind == WELCOME then out[i].Welcome? else out[i].Hello?);
      assert i < read + 1;
    }
  }

  lemma HeardSame(out: seq<Message>, more: seq<Message>, read: nat, kind: Text)
    requires read <= |out| && out <= more
    ensures Heard(more, read, kind) <==> Heard(out, read, kind)
  {
    assert forall i :: 0 <= i < read ==> more[i] == out[i];
    if Heard(out, read, kind) {
      var i :| 0 <= i < read && (if kind == WELCOME then out[i].Welcome? else out[i].Hello?);
      assert more[i] == out[i];
    }
  }

  lemma RunnerKeepsAnswers(s: State, a: Action)
    requires OrderInv(s) && Enabled(s, Label(Runner, a))
    ensures Answers(s.(runner := Step(s, Runner, a)))
  {
    PartyGrows(s, Runner, a);
    HeardSame(s.runner.out, Step(s, Runner, a).out, s.worker.read, WELCOME);
  }

  /** What the worker adds to its stream, apart from a reply to the welcome, is plain. */
  lemma WorkerAdds(s: State, a: Action)
    requires OrderInv(s) && Enabled(s, Label(Worker, a)) && OrderlyAct(a)
    ensures var p, q := s.worker, Step(s, Worker, a);
            p.out <= q.out &&
            if a.Receive? && s.runner.out[p.read].Welcome? then |q.out| == |p.out| + 1 && q.out[|p.out|].Hello?
            else AllPlain(q.out[|p.out|..])
  {
    var p := s.worker;
    PartyGrows(s, Worker, a);
    match a
    case Receive(reply, accepts) =>
      OwnGreeting(HELLO, reply, p.local);
      HandleSends(p.(read := p.read + 1), s.runner.out[p.read], reply, accepts);
    case _ =>
  }

  lemma {:induction false} PlainIsNoGreeting(out: seq<Message>, more: seq<Message>, kind: Text)
    requires out <= more && AllPlain(more[|out|..])
    ensures Heard(more, |more|, kind) <==> Heard(out, |out|, kind)
  {
    HeardSame(out, more, |out|, kind);
    forall i | |out| <= i < |more| ensures Plain(more[i]) {
      assert more[i] == more[|out|..][i - |out|];
    }
    if Heard(more, |more|, kind) {
      var i :| 0 <= i < |more| && (if kind == WELCOME then more[i].Welcome? else more[i].Hello?);
      assert i < |out|;
    }
  }

  lemma WorkerKeepsAnswers(s: State, a: Action)
    requires OrderInv(s) && Enabled(s, Label(Worker, a)) && OrderlyAct(a)
    ensures Answers(s.(worker := Step(s, Worker, a)))
  {
    var p, q := s.worker, Step(s, Worker, a);
    WorkerAdds(s, a);
    PartyLearns(s, Worker, a);
    if a.Receive? {
      HeardNext(s.runner.out, p.read, WELCOME);
    }
    if a.Receive? && s.runner.out[p.read].Welcome? {
      assert Heard(q.out, |q.out|, HELLO);
    } else {
      PlainIsNoGreeting(p.out, q.out, HELLO);
    }
  }

  lemma StepKeepsOrder(s: State, l: Label)
    requires OrderInv(s) && Enabled(s, l) && OrderlyAct(l.act)
    ensures OrderInv(Apply(s, l))
  {
    PartyGrows(s, l.side, l.act);
    PartyLearns(s, l.side, l.act);
    if l.side.Runner? {
      RunnerKeepsTalk(s, l.act);
      RunnerKeepsAnswers(s, l.act);
    } else {
      WorkerKeepsTalk(s, l.act);
      WorkerKeepsAnswers(s, l.act);
    }
  }

  lemma {:induction false} EveryRunKeepsOrder(s: State, run: seq<Label>, t: State)
    requires OrderInv(s) && Orderly(run) && Reaches(s, run, t)
    ensures OrderInv(t)
    decreases |run|
  {
    if run != [] {
      assert OrderlyAct(run[0].act);
      assert Orderly(run[1..]);
      StepKeepsOrder(s, run[0]);
      EveryRunKeepsOrder(Apply(s, run[0]), run[1..], t);
    }
  }

  lemma {:induction false} TaughtByRunner(out: seq<Message>, read: nat, handlers: set<Text>, local: set<Text>)
    requires read <= |out| && forall i :: 0 <= i < |out| ==> RunnerSays(out[i], local)
    requires WELCOME !in handlers
    ensures Taught(out, read, handlers) == if Heard(out, read, WELCOME) then local else {}
  {
    if read > 0 {
      TaughtByRunner(out, read - 1, handlers, local);
      HeardNext(out, read - 1, WELCOME);
      assert RunnerSays(out[read - 1], local);
    }
  }

  lemma {:induction false} TaughtByWorker(out: seq<Message>, read: nat, handlers: set<Text>, local: set<Text>)
    requires read <= |out| && forall i :: 0 <= i < |out| ==> WorkerSays(out[i], local)
    requires HELLO !in handlers
    ensures Taught(out, read, handlers) == if Heard(out, read, HELLO) then local else {}
  {
    if read > 0 {
      TaughtByWorker(out, read - 1, handlers, local);
      HeardNext(out, read - 1, HELLO);
      assert WorkerSays(out[read - 1], local);
    }
  }

  /** A side that answers that it has a capability is right that both sides have it; and once it
      has handled the other's greeting, it answers exactly the intersection. */
  lemma CapabilitiesAgree(run: seq<Label>, t: State)
    requires Reaches(Init(), run, t) && Orderly(run)
    ensures t.worker.read <= |t.runner.out| && t.runner.read <= |t.worker.out|
    ensures forall c :: HasCapability(t.runner, c) || HasCapability(t.worker, c) ==>
              c in t.runner.local && c in t.worker.local
    ensures HeardWelcome(t) ==>
              forall c :: HasCapability(t.worker, c) <==> c in t.runner.local && c in t.worker.local
    ensures HeardHello(t) ==>
              forall c :: HasCapability(t.runner, c) <==> c in t.runner.local && c in t.worker.local
  {
    EveryRunKeepsInv(Init(), run, t);
    EveryRunKeepsOrder(Init(), run, t);
    TaughtByRunner(t.runner.out, t.worker.read, t.worker.handlers, t.runner.local);
    TaughtByWorker(t.worker.out, t.runner.read, t.runner.handlers, t.worker.local);
  }

  /** The worker says hello in answer to a welcome, and only then. */
  lemma HelloIsAnAnswer(run: seq<Label>, t: State)
    requires Reaches(Init(), run, t) && Orderly(run)
    ensures t.worker.read <= |t.runner.out|
    ensures (exists i :: 0 <= i < |t.worker.out| && t.worker.out[i].Hello?) <==> HeardWelcome(t)
  {
    EveryRunKeepsOrder(Init(), run, t);
    assert WELCOME != HELLO by {
      ReservedAreTexts();
    }
  }
}
