/** Schedules of the handshake that go wrong, and why orderly ones come to agreement
    (internal/workerproto/api.go). */
module HandshakeRuns {
  import opened Packets
  import opened Handshake
  import opened HandshakeProofs
  import Json

  // ---------------------------------------------------------- what can go wrong

  lemma Do(run: seq<Label>, s: State, l: Label) returns (more: seq<Label>, t: State)
    requires Reaches(Init(), run, s) && Enabled(s, l)
    ensures Reaches(Init(), more, t) && more == run + [l] && t == Apply(s, l)
  {
    more, t := run + [l], Apply(s, l);
    Concat(Init(), run, s, [l], t);
  }

  lemma {:induction false} Concat(s: State, run: seq<Label>, t: State, more: seq<Label>, u: State)
    requires Reaches(s, run, t) && Reaches(t, more, u)
    ensures Reaches(s, run + more, u)
    decreases |run|
  {
    if run == [] {
      assert run + more == more;
    } else {
      assert (run + more)[1..] == run[1..] + more;
      Concat(Apply(s, run[0]), run[1..], t, more, u);
    }
  }

  lemma ListsOne(x: Text)
    ensures Lists([x], {x}) && Lists([], {})
  {
    assert Members([x]) == {x};
    assert Members([]) == {};
  }

  /** A runner that has one capability and serves, with handlers of the application or none. */
  lemma RunnerServes(x: Text, kinds: set<Text>, early: seq<Json.Member>) returns (run: seq<Label>, t: State)
    requires kinds == {} || kinds == {HELLO}
    ensures Reaches(Init(), run, t) && t.worker == Fresh()
    ensures t.runner.stage.Serving? && t.runner.local == {x} && t.runner.remote == {} && t.runner.read == 0
    ensures t.runner.handlers == kinds && t.runner.early == [Carried(early)]
    ensures t.runner.out == [Carried(early), Own(WELCOME, [x])]
  {
    ListsOne(x);
    run, t := [], Init();
    run, t := Do(run, t, Label(Runner, AddCapability(x)));
    if kinds == {HELLO} {
      run, t := Do(run, t, Label(Runner, AddHandler(HELLO)));
    }
    run, t := Do(run, t, Label(Runner, Swap));
    run, t := Do(run, t, Label(Runner, Send(early)));
    assert t.runner.local == {x};
    run, t := Do(run, t, Label(Runner, Greet([x])));
    run, t := Do(run, t, Label(Runner, Copy));
  }

  /** The stream need not begin with the welcome: another goroutine's packet is sent between the
      swap and the welcome. */
  lemma WelcomeIsOvertaken(body: seq<Json.Member>) returns (run: seq<Label>, t: State)
    ensures Reaches(Init(), run, t) && t.runner.stage.Serving? && t.runner.early == [Carried(body)]
    ensures |t.runner.out| == 2 && t.runner.out[0] == Carried(body)
    ensures OwnWelcome(t.runner.out[1], t.runner.local)
  {
    run, t := RunnerServes([], {}, body);
    ListsOne([]);
  }

  lemma OwnOne(kind: Text, x: Text)
    requires Json.ValidText(x)
    ensures Own(kind, [x]) == Greeting(kind, [x])
  {
    ValidAreClean([x]);
  }

  /** The application of a worker without capabilities sends a hello that names one. */
  lemma WorkerForges(x: Text, body: seq<Json.Member>, run0: seq<Label>, s: State)
    returns (run: seq<Label>, t: State)
    requires Carried(body) == Hello([x]) && Reaches(Init(), run0, s) && s.worker == Fresh()
    ensures Reaches(Init(), run, t) && t.runner == s.runner
    ensures t.worker.out == [Hello([x])] && t.worker.local == {}
  {
    run, t := Do(run0, s, Label(Worker, Send(body)));
    run, t := Do(run, t, Label(Worker, Swap));
    run, t := Do(run, t, Label(Worker, Copy));
  }

  /** A hello as an application can write it. */
  lemma HelloBody(x: Text) returns (body: seq<Json.Member>)
    requires Json.ValidText(x)
    ensures Carried(body) == Hello([x])
  {
    body := HelloMembers(HELLO, [x]);
    GreetingMeans(HELLO, [x]);
    OwnOne(HELLO, x);
    ReservedAreTexts();
  }

  lemma UntypedBody() returns (body: seq<Json.Member>)
    ensures Carried(body) == Untyped
  {
    body := [];
  }

  /** The runner reads a hello, and takes it to heart or leaves it to the application. */
  lemma RunnerReads(x: Text, run0: seq<Label>, s: State) returns (run: seq<Label>, t: State)
    requires Reaches(Init(), run0, s) && s.runner.stage.Serving? && s.runner.local == {x}
    requires s.runner.read == 0 && s.runner.remote == {} && s.worker.out == [Hello([x])]
    ensures Reaches(Init(), run, t) && t.worker == s.worker && t.runner.local == {x} && t.runner.read == 1
    ensures t.runner.remote == if HELLO in s.runner.handlers then {} else {x}
  {
    ListsOne(x);
    run, t := Do(run0, s, Label(Runner, Receive([x], true)));
    assert Members([x]) == {x};
  }

  /** An application that sends a hello of its own makes the runner affirm any capability that it
      has itself, although the worker does not have it. */
  lemma ForgedHello(x: Text) returns (run: seq<Label>, t: State)
    requires Json.ValidText(x)
    ensures Reaches(Init(), run, t) && HasCapability(t.runner, x) && x !in t.worker.local
  {
    var line := UntypedBody();
    var body := HelloBody(x);
    run, t := RunnerServes(x, {}, line);
    run, t := WorkerForges(x, body, run, t);
    run, t := RunnerReads(x, run, t);
  }

  /** A worker with one capability starts to serve, */
  lemma WorkerServes(x: Text, run0: seq<Label>, s: State) returns (run: seq<Label>, t: State)
    requires Reaches(Init(), run0, s) && s.worker == Fresh()
    ensures Reaches(Init(), run, t) && t.runner == s.runner
    ensures t.worker == Fresh().(local := {x}, stage := Serving)
  {
    run, t := Do(run0, s, Label(Worker, AddCapability(x)));
    assert t.worker.local == {x};
    run, t := Do(run, t, Label(Worker, Swap));
    run, t := Do(run, t, Label(Worker, Copy));
  }

  /** And reads a line of output. */
  lemma WorkerSkips(x: Text, run0: seq<Label>, s: State) returns (run: seq<Label>, t: State)
    requires Reaches(Init(), run0, s) && s.worker == Fresh().(local := {x}, stage := Serving)
    requires |s.runner.out| > 0 && s.runner.out[0].Untyped?
    ensures Reaches(Init(), run, t) && t.runner == s.runner
    ensures t.worker == Fresh().(local := {x}, stage := Serving, read := 1)
  {
    ListsOne(x);
    run, t := Do(run0, s, Label(Worker, Receive([x], true)));
  }

  /** And then the welcome, which it answers. */
  lemma WorkerAnswers(x: Text, run0: seq<Label>, s: State) returns (run: seq<Label>, t: State)
    requires Json.ValidText(x) && Reaches(Init(), run0, s)
    requires s.worker == Fresh().(local := {x}, stage := Serving, read := 1)
    requires |s.runner.out| > 1 && s.runner.out[1].Welcome?
    ensures Reaches(Init(), run, t) && t.runner == s.runner
    ensures t.worker.out == [Hello([x])] && t.worker.local == {x}
  {
    ListsOne(x);
    ReservedAreTexts();
    OwnOne(HELLO, x);
    run, t := Do(run0, s, Label(Worker, Receive([x], true)));
  }

  /** A handler of the application for hello replaces the built-in one: the runner then never
      affirms a capability that both sides have, although it has read the worker's hello. */
  lemma ReplacedHandler(x: Text) returns (run: seq<Label>, t: State)
    requires Json.ValidText(x)
    ensures Reaches(Init(), run, t) && x in t.runner.local && x in t.worker.local
    ensures t.runner.read <= |t.worker.out| && HeardHello(t) && !HasCapability(t.runner, x)
  {
    OwnOne(WELCOME, x);
    var line := UntypedBody();
    run, t := RunnerServes(x, {HELLO}, line);
    run, t := WorkerServes(x, run, t);
    run, t := WorkerSkips(x, run, t);
    run, t := WorkerAnswers(x, run, t);
    run, t := RunnerReads(x, run, t);
    HelloHeard(t);
  }

  lemma HelloHeard(t: State)
    requires t.runner.read == 1 && |t.worker.out| == 1 && t.worker.out[0].Hello?
    ensures HeardHello(t)
  {
    ReservedAreTexts();
  }

  // -------------------------------------------------------------------- progress

  /** The actions that the communicators take by themselves once `Run` is to be called. */
  predicate Internal(l: Label) { l.act.Swap? || l.act.Greet? || l.act.Copy? || l.act.Receive? }

  predicate AllInternal(run: seq<Label>) { forall i :: 0 <= i < |run| ==> Internal(run[i]) }

  /** A welcome is read, and so is the reply to it. */
  function Cost(m: Message): nat { if m.Welcome? then 2 else 1 }

  function Costs(ms: seq<Message>): nat {
    if ms == [] then 0 else Costs(ms[..|ms| - 1]) + Cost(ms[|ms| - 1])
  }

  function StageWork(p: Party): nat {
    match p.stage
    case NotRun => 5 + Costs(p.queued)
    case Swapped => 4 + Costs(p.queued)
    case Greeted => 1 + Costs(p.queued)
    case _ => 0
  }

  /** What is left of a stream to read, and what its writer has still to add to it. */
  function StreamWork(writer: Party, read: nat): nat
    requires read <= |writer.out|
  {
    Costs(writer.out[read..]) + StageWork(writer)
  }

  function Work(s: State): nat
    requires s.worker.read <= |s.runner.out| && s.runner.read <= |s.worker.out|
  {
    StreamWork(s.runner, s.worker.read) + StreamWork(s.worker, s.runner.read)
  }

  lemma {:induction false} CostsJoin(a: seq<Message>, b: seq<Message>)
    ensures Costs(a + b) == Costs(a) + Costs(b)
    decreases |b|
  {
    if b == [] {
      assert a + b == a;
    } else {
      var front := b[..|b| - 1];
      assert (a + b)[..|a + b| - 1] == a + front;
      CostsJoin(a, front);
    }
  }

  lemma CostsOne(m: Message)
    ensures Costs([m]) == Cost(m)
  {
    assert [m][..0] == [];
  }

  /** A writer that adds `more` to its stream leaves that much more to read. */
  lemma StreamAdds(out: seq<Message>, more: seq<Message>, read: nat)
    requires read <= |out|
    ensures Costs((out + more)[read..]) == Costs(out[read..]) + Costs(more)
  {
    assert (out + more)[read..] == out[read..] + more;
    CostsJoin(out[read..], more);
  }

  lemma StreamReads(out: seq<Message>, read: nat)
    requires read < |out|
    ensures Costs(out[read..]) == Cost(out[read]) + Costs(out[read + 1..])
  {
    assert out[read..] == [out[read]] + out[read + 1..];
    CostsJoin([out[read]], out[read + 1..]);
    CostsOne(out[read]);
  }

  lemma ReplyCost(reply: seq<Text>)
    ensures Cost(Own(HELLO, reply)) == 1
  {
    ReservedAreTexts();
  }

  /** Before a reader of it serves, and while it does, an own action of the writer that is not a
      receive lowers what its stream costs. */
  lemma WriterAdvances(s: State, side: Side, a: Action, read: nat)
    requires Enabled(s, Label(side, a)) && Internal(Label(side, a)) && !a.Receive?
    requires read <= |Me(s, side).out|
    ensures read <= |Step(s, side, a).out|
    ensures StreamWork(Step(s, side, a), read) < StreamWork(Me(s, side), read)
  {
    var p := Me(s, side);
    match a
    case Greet(caps) =>
      var m := Own(WELCOME, caps);
      StreamAdds(p.out, [m], read);
      CostsOne(m);
    case Copy => StreamAdds(p.out, p.queued, read);
    case _ =>
  }

  /** What a receive adds to the reader's own stream is paid for by the packet read. */
  lemma ReaderAdvances(s: State, side: Side, a: Action, read: nat)
    requires Enabled(s, Label(side, a)) && a.Receive? && read <= |Me(s, side).out|
    ensures read <= |Step(s, side, a).out|
    ensures StreamWork(Step(s, side, a), read) <
            StreamWork(Me(s, side), read) + Cost(Peer(s, side).out[Me(s, side).read])
  {
    var p, m := Me(s, side), Peer(s, side).out[Me(s, side).read];
    var q := p.(read := p.read + 1);
    HandleSends(q, m, a.reply, a.accepts);
    ReplyCost(a.reply);
    var sent := Own(HELLO, a.reply);
    StreamAdds(p.out, [sent], read);
    CostsOne(sent);
  }

  lemma StepAdvances(s: State, l: Label)
    requires s.worker.read <= |s.runner.out| && s.runner.read <= |s.worker.out|
    requires Enabled(s, l) && Internal(l)
    ensures var t := Apply(s, l);
            t.worker.read <= |t.runner.out| && t.runner.read <= |t.worker.out| && Work(t) < Work(s)
  {
    var me, peer := Me(s, l.side), Peer(s, l.side);
    PartyGrows(s, l.side, l.act);
    PartyLearns(s, l.side, l.act);
    if l.act.Receive? {
      ReaderAdvances(s, l.side, l.act, peer.read);
      StreamReads(peer.out, me.read);
    } else {
      WriterAdvances(s, l.side, l.act, peer.read);
    }
  }

  lemma {:induction false} RunsAreShort(s: State, run: seq<Label>, t: State)
    requires s.worker.read <= |s.runner.out| && s.runner.read <= |s.worker.out|
    requires AllInternal(run) && Reaches(s, run, t)
    ensures t.worker.read <= |t.runner.out| && t.runner.read <= |t.worker.out|
    ensures |run| + Work(t) <= Work(s)
    decreases |run|
  {
    if run != [] {
      assert Internal(run[0]);
      StepAdvances(s, run[0]);
      RunsAreShort(Apply(s, run[0]), run[1..], t);
    }
  }

  lemma {:induction false} CostsBound(ms: seq<Message>)
    ensures Costs(ms) <= 2 * |ms|
  {
    if ms != [] {
      CostsBound(ms[..|ms| - 1]);
    }
  }

  /** Every set can be listed, so a greeting can always be made. */
  lemma {:induction false} SomeList(all: set<Text>) returns (caps: seq<Text>)
    ensures Lists(caps, all)
    decreases |all|
  {
    if all == {} {
      caps := [];
    } else {
      var c :| c in all;
      var rest := SomeList(all - {c});
      caps := rest + [c];
      assert Members(caps) == Members(rest) + {c};
      assert all == (all - {c}) + {c};
    }
  }

  /** A side that has nothing left to do has read the whole stream, unless it has ended. */
  lemma StuckHasRead(s: State, side: Side)
    requires forall l :: Internal(l) ==> !Enabled(s, l)
    requires side.Worker? ==> !s.worker.stage.Greeted?
    requires Me(s, side).read <= |Peer(s, side).out|
    ensures Me(s, side).stage.Ended? ||
            (Me(s, side).stage.Serving? && Me(s, side).read == |Peer(s, side).out|)
  {
    var p := Me(s, side);
    var caps := SomeList(p.local);
    assert !Enabled(s, Label(side, Swap));
    assert !Enabled(s, Label(side, Copy));
    assert !Enabled(s, Label(side, Greet(caps)));
    assert !Enabled(s, Label(side, Receive(caps, true)));
  }

  predicate Quiet(s: State) {
    (s.runner.stage.Serving? && s.runner.read == |s.worker.out|) &&
    (s.worker.stage.Serving? && s.worker.read == |s.runner.out|)
  }

  /** Both sides affirm exactly the capabilities that both have. */
  ghost predicate Agreement(s: State) {
    forall c :: && (HasCapability(s.runner, c) <==> c in s.runner.local && c in s.worker.local)
                && (HasCapability(s.worker, c) <==> c in s.runner.local && c in s.worker.local)
  }

  lemma QuietAgrees(run: seq<Label>, t: State)
    requires Reaches(Init(), run, t) && Orderly(run) && Quiet(t)
    ensures Agreement(t)
  {
    BothHaveHeard(run, t);
    CapabilitiesAgree(run, t);
  }

  lemma StuckIsQuiet(s: State)
    requires Inv(s) && forall l :: Internal(l) ==> !Enabled(s, l)
    ensures s.runner.stage.Ended? || s.worker.stage.Ended? || Quiet(s)
  {
    StuckHasRead(s, Runner);
    StuckHasRead(s, Worker);
  }

  lemma InternalIsOrderly(before: seq<Label>, run: seq<Label>)
    requires Orderly(before) && AllInternal(run)
    ensures Orderly(before + run)
  {
    forall i | 0 <= i < |before + run| ensures OrderlyAct((before + run)[i].act) {
      if i < |before| {
        assert OrderlyAct(before[i].act);
      } else {
        assert Internal(run[i - |before|]);
      }
    }
  }

  /** From any state, without new packets of the applications, the handshake takes at most
      twice as many actions as there are packets unread or queued, and ten more. If it was
      orderly and can then not go on, a side has refused a packet, or both have read all that
      the other says, and affirm exactly the capabilities that both have. */
  lemma AgreementIsReached(before: seq<Label>, s: State, run: seq<Label>, t: State)
    requires Reaches(Init(), before, s) && Orderly(before) && AllInternal(run) && Reaches(s, run, t)
    ensures s.worker.read <= |s.runner.out| && s.runner.read <= |s.worker.out|
    ensures |run| <= 10 + 2 * (|s.runner.out| - s.worker.read + |s.runner.queued| +
                               |s.worker.out| - s.runner.read + |s.worker.queued|)
    ensures (forall l :: Internal(l) ==> !Enabled(t, l)) ==>
              t.runner.stage.Ended? || t.worker.stage.Ended? || (Quiet(t) && Agreement(t))
  {
    EveryRunKeepsInv(Init(), before, s);
    RunsAreShort(s, run, t);
    WorkBound(s);
    if forall l :: Internal(l) ==> !Enabled(t, l) {
      EveryRunKeepsInv(s, run, t);
      StuckIsQuiet(t);
      Concat(Init(), before, s, run, t);
      InternalIsOrderly(before, run);
      if Quiet(t) {
        QuietAgrees(before + run, t);
      }
    }
  }

  lemma WorkBound(s: State)
    requires s.worker.read <= |s.runner.out| && s.runner.read <= |s.worker.out|
    ensures Work(s) <= 10 + 2 * (|s.runner.out| - s.worker.read + |s.runner.queued| +
                                 |s.worker.out| - s.runner.read + |s.worker.queued|)
  {
    CostsBound(s.runner.out[s.worker.read..]);
    CostsBound(s.worker.out[s.runner.read..]);
    CostsBound(s.runner.queued);
    CostsBound(s.worker.queued);
  }

  lemma BothHaveHeard(run: seq<Label>, t: State)
    requires Reaches(Init(), run, t) && Orderly(run)
    requires t.runner.stage.Serving? && t.worker.read == |t.runner.out| && t.runner.read == |t.worker.out|
    ensures HeardWelcome(t) && HeardHello(t)
  {
    EveryRunKeepsInv(Init(), run, t);
    EveryRunKeepsOrder(Init(), run, t);
    var own := t.runner.out[|t.runner.early|];
    var caps :| Lists(caps, t.runner.local) && own == Own(WELCOME, caps);
    OwnGreeting(WELCOME, caps, t.runner.local);
    assert own.Welcome?;
    HelloIsAnAnswer(run, t);
  }
}
