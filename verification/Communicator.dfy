/** The communicator as an object, and its packets as bytes (internal/workerproto/api.go,
    internal/workerproto/shutdown.go). */
module Communicator {
  import opened Bytes
  import opened Wrappers
  import opened Json
  import opened Framing
  import opened FramingProofs
  import opened Packets
  import opened Handshake
  import Scheduler

  const FINISH_TASKS: seq<byte> := [102, 105, 110, 105, 115, 104, 45, 116, 97, 115, 107, 115]

  // ----------------------------------------------------------- packets as values

  /** The text of a whole packet: nothing but white space may follow the value. */
  function Unmarshal(packet: seq<byte>): Option<Value> {
    match ParseValue(packet)
    case Bad => None
    case Ok(v, rest) => if SkipWs(rest) == [] then Some(v) else None
  }

  function CapsOf(packet: seq<byte>): Option<seq<Text>> {
    match Unmarshal(packet)
    case None => None
    case Some(Null) => Some([])
    case Some(Obj(members)) =>
      if PacketKind(members, []).NoKind? then None else CapsFrom(members, [], [])
    case _ => None
  }

  /** The `finish-tasks` of a packet; false when it is not given. */
  function FinishFrom(members: seq<Member>, finish: bool): Option<bool> {
    if members == [] then Some(finish)
    else if !FoldEq(members[0].key, FINISH_TASKS) || members[0].value.Null? then
      FinishFrom(members[1..], finish)
    else if members[0].value.Bool? then FinishFrom(members[1..], members[0].value.b)
    else None
  }

  function FinishOf(packet: seq<byte>): Option<bool> {
    match Unmarshal(packet)
    case None => None
    case Some(Null) => Some(false)
    case Some(Obj(members)) => FinishFrom(members, false)
    case _ => None
  }

  lemma UnmarshalBack(members: seq<Member>)
    requires WellFormedMembers(members)
    ensures Unmarshal(Encode(Obj(members))) == Some(Obj(CleanMembers(members)))
  {
    ValueBack(Obj(members), []);
    assert Encode(Obj(members)) + [] == Encode(Obj(members));
  }

  lemma CapsOfObject(packet: seq<byte>, members: seq<Member>, kind: Text)
    requires Unmarshal(packet) == Some(Obj(members)) && PacketKind(members, []) == Kind(kind)
    ensures CapsOf(packet) == CapsFrom(members, [], [])
  {
  }

  /** A hello packet is read back: its kind, and its capabilities in order. */
  lemma HelloBack(kind: Text, caps: seq<Text>)
    requires ValidText(kind)
    ensures CapsOf(Encode(Obj(HelloMembers(kind, caps)))) == Some(CleanAll(caps))
    ensures AllValid(caps) ==> CleanAll(caps) == caps
    ensures KindOf(HelloMembers(kind, caps)) == Kind(kind)
  {
    var members := HelloMembers(kind, caps);
    var clean := HelloMembers(kind, CleanAll(caps));
    HelloIsClean(kind, caps);
    UnmarshalBack(members);
    TextsBack(CleanAll(caps));
    HelloKind(kind, CleanAll(caps));
    HelloCaps(kind, CleanAll(caps));
    CapsOfObject(Encode(Obj(members)), clean, kind);
    if AllValid(caps) {
      ValidAreClean(caps);
    }
  }

  // ------------------------------------------------------ the stream of messages

  /** The message that an event stands for: what the built-in handlers decode, or the handler of
      the application is given. */
  function MessageOf(e: Event): Message {
    match e
    case Logged(_) => Untyped
    case Handled(kind, packet) =>
      if Reserved(kind) then
        match CapsOf(packet)
        case None => Malformed(kind)
        case Some(caps) => Greeting(kind, caps)
      else
        match Unmarshal(packet)
        case Some(Obj(members)) => App(kind, members)
        case _ => App(kind, [])
  }

  predicate Sendable(members: seq<Member>) {
    WellFormedMembers(members) && 1 + |Encode(Obj(members))| <= BUFFER
  }

  function ItemsOf(packets: seq<seq<Member>>): seq<Item> {
    if packets == [] then [] else [Item.Packet(packets[0])] + ItemsOf(packets[1..])
  }

  /** Every packet that fits, greeting or not, arrives as the message it stands for. */
  lemma MessageBack(members: seq<Member>)
    requires Sendable(members)
    ensures Fits(Item.Packet(members)) && |EventsOf(Item.Packet(members))| == 1
    ensures MessageOf(EventsOf(Item.Packet(members))[0]) == Carried(members)
  {
    if HasKind(members) {
      UnmarshalBack(members);
    }
  }

  lemma FirstItem(items: seq<Item>)
    requires items != [] && Fits(items[0]) && AllFit(items[1..])
    ensures AllFit(items) && Expected(items) == EventsOf(items[0]) + Expected(items[1..])
  {
    assert forall i :: 0 < i < |items| ==> items[i] == items[1..][i - 1];
  }

  /** The packets of one side, written and parsed by the other, arrive as the messages they
      stand for, in the same order. */
  lemma {:induction false} StreamCarriesMessages(packets: seq<seq<Member>>)
    requires forall i :: 0 <= i < |packets| ==> Sendable(packets[i])
    ensures AllFit(ItemsOf(packets)) && |Expected(ItemsOf(packets))| == |packets|
    ensures forall i :: 0 <= i < |packets| ==>
              MessageOf(Expected(ItemsOf(packets))[i]) == Carried(packets[i])
  {
    if packets != [] {
      var items := ItemsOf(packets);
      assert items[0] == Item.Packet(packets[0]) && items[1..] == ItemsOf(packets[1..]);
      MessageBack(packets[0]);
      StreamCarriesMessages(packets[1..]);
      FirstItem(items);
      forall i | 0 <= i < |packets| ensures MessageOf(Expected(items)[i]) == Carried(packets[i]) {
        assert i > 0 ==> packets[i] == packets[1..][i - 1];
      }
    }
  }

  lemma {:induction false} DeliverAll(events: seq<Event>, past: seq<Event>, h: Framing.Handler)
    requires forall es :: h(es)
    ensures Deliver(events, past, h) == (past + events, true)
  {
    if events == [] {
      assert past + events == past;
    } else {
      DeliverAll(events[1..], past + [events[0]], h);
      assert past + [events[0]] + events[1..] == past + events;
    }
  }

  /** So a whole stream of packets, as bytes, is parsed into exactly these messages. */
  lemma WireCarriesMessages(packets: seq<seq<Member>>, h: Framing.Handler)
    requires forall i :: 0 <= i < |packets| ==> Sendable(packets[i])
    requires forall es :: h(es)
    ensures var (events, end) := ParseFrom(Stream(ItemsOf(packets)), false, [], h);
            && end == Finished && |events| == |packets|
            && forall i :: 0 <= i < |packets| ==> MessageOf(events[i]) == Carried(packets[i])
  {
    StreamCarriesMessages(packets);
    ParseInvertsWrite(ItemsOf(packets), false, [], h);
    DeliverAll(Expected(ItemsOf(packets)), [], h);
    assert [] + Expected(ItemsOf(packets)) == Expected(ItemsOf(packets));
  }

  // ----------------------------------------------------------------- the object

  datatype Handler = OnWelcome | OnHello | Custom(accepts: bool)

  /** The built-in handlers are under their own names only, and at both if nobody has replaced
      them. */
  predicate Registered(handlers: map<Text, Handler>) {
    && WELCOME in handlers && HELLO in handlers
    && (forall k :: k in handlers && handlers[k].OnWelcome? ==> k == WELCOME)
    && (forall k :: k in handlers && handlers[k].OnHello? ==> k == HELLO)
  }

  class Communicator {
    var localCapabilities: set<Text>
    var remoteCapabilities: set<Text>
    var handlers: map<Text, Handler>
    const isWorker: bool
    var writer: ByteWriter
    const queue: ByteWriter      // the writer until Run

    constructor (worker: bool)
      ensures isWorker == worker && localCapabilities == {} && remoteCapabilities == {}
      ensures handlers == map[WELCOME := OnWelcome, HELLO := OnHello]
      ensures fresh(queue) && writer == queue && queue.data == [] && !queue.failing
    {
      isWorker := worker;
      localCapabilities, remoteCapabilities := {}, {};
      handlers := map[WELCOME := OnWelcome, HELLO := OnHello];
      var buffer := new ByteWriter();
      writer, queue := buffer, buffer;
    }

    method HasCapability(c: Text) returns (r: bool)
      ensures r <==> c in localCapabilities && c in remoteCapabilities
    {
      r := c in localCapabilities && c in remoteCapabilities;
    }

    method AddCapability(c: Text)
      modifies this`localCapabilities
      ensures localCapabilities == old(localCapabilities) + {c}
    {
      localCapabilities := localCapabilities + {c};
    }

    method AddHandler(kind: Text, h: Handler)
      modifies this`handlers
      ensures handlers == old(handlers)[kind := h]
    {
      handlers := handlers[kind := h];
    }

    method Send(packet: Value) returns (ok: bool)
      modifies writer
      ensures ok == !old(writer.failing) && writer.failing == old(writer.failing)
      ensures writer.data == old(writer.data) + (if ok then Framed(packet) else [])
    {
      ok := Framing.Write(writer, packet);
    }

    /** The keys of the map, in any order. */
    method ListCapabilities() returns (caps: seq<Text>)
      ensures Lists(caps, localCapabilities)
    {
      caps := [];
      var left := localCapabilities;
      while left != {}
        invariant left <= localCapabilities
        invariant Members(caps) == localCapabilities - left && |caps| == |localCapabilities| - |left|
        decreases |left|
      {
        var c :| c in left;
        caps := caps + [c];
        left := left - {c};
      }
    }

    /** `Run` up to the call of Parse: the new writer gets the welcome of a runner, and then
        what was sent before. */
    method Start(w: ByteWriter) returns (ok: bool, ghost caps: seq<Text>)
      requires writer == queue && w != queue
      modifies this`writer, w, queue
      ensures writer == w && Lists(caps, localCapabilities)
      ensures ok == (!old(w.failing) || (isWorker && old(queue.data) == []))
      ensures ok ==> queue.data == []
      ensures ok ==>
                w.data == old(w.data) +
                          (if isWorker then [] else Framed(Obj(HelloMembers(WELCOME, caps)))) + old(queue.data)
      ensures !ok ==> w.data == old(w.data) && queue.data == old(queue.data)
    {
      var oldWriter := writer;
      writer := w;
      var all := ListCapabilities();
      caps := all;
      if !isWorker {
        ok := Send(Obj(HelloMembers(WELCOME, all)));
        if !ok {
          return;
        }
      }
      ok := true;
      if |oldWriter.data| > 0 {
        ok := w.Write(oldWriter.data);
        if ok {
          oldWriter.data := [];
        }
      }
    }

    method Hear(packet: seq<byte>) returns (ok: bool)
      modifies this`remoteCapabilities
      ensures ok == CapsOf(packet).Some?
      ensures remoteCapabilities ==
              old(remoteCapabilities) + (if ok then Members(CapsOf(packet).value) else {})
    {
      var parsed := CapsOf(packet);
      if parsed.None? {
        return false;
      }
      var i := 0;
      var caps := parsed.value;
      while i < |caps|
        invariant 0 <= i <= |caps|
        invariant remoteCapabilities == old(remoteCapabilities) + Members(caps[..i])
      {
        assert caps[..i + 1] == caps[..i] + [caps[i]];
        remoteCapabilities := remoteCapabilities + {caps[i]};
        i := i + 1;
      }
      assert caps[..i] == caps;
      ok := true;
    }

    method Answer(packet: seq<byte>) returns (ok: bool, ghost caps: seq<Text>)
      modifies this`remoteCapabilities, writer
      ensures Lists(caps, localCapabilities)
      ensures ok == (CapsOf(packet).Some? && !old(writer.failing))
      ensures remoteCapabilities ==
              old(remoteCapabilities) + (if CapsOf(packet).Some? then Members(CapsOf(packet).value) else {})
      ensures writer.data == old(writer.data) + (if ok then Framed(Obj(HelloMembers(HELLO, caps))) else [])
    {
      ok := Hear(packet);
      var all := ListCapabilities();
      caps := all;
      if !ok {
        return;
      }
      ok := Send(Obj(HelloMembers(HELLO, all)));
    }

    /** This side as a party of the handshake that serves packets. */
    function View(): Party
      reads this
    {
      var added := set k | k in handlers && handlers[k].Custom?;
      Party(localCapabilities, remoteCapabilities, added, Serving, [], [], [], [], [], 0)
    }

    /** `handle`. With a writer that works, it is the step of the handshake: it learns the same
        capabilities, writes the same replies, and ends the run in the same cases. */
    method Handle(kind: Text, packet: seq<byte>) returns (ok: bool, ghost caps: seq<Text>)
      modifies this`remoteCapabilities, writer
      ensures kind !in handlers ==> !ok
      ensures kind in handlers ==>
                match handlers[kind]
                case OnWelcome => ok == (CapsOf(packet).Some? && !old(writer.failing))
                case OnHello => ok == CapsOf(packet).Some?
                case Custom(accepts) => ok == accepts
      ensures remoteCapabilities == old(remoteCapabilities) +
              (if kind in handlers && !handlers[kind].Custom? && CapsOf(packet).Some?
               then Members(CapsOf(packet).value) else {})
      ensures Lists(caps, localCapabilities)
      ensures writer.data == old(writer.data) +
              (if kind in handlers && handlers[kind].OnWelcome? && ok
               then Framed(Obj(HelloMembers(HELLO, caps))) else [])
      ensures Registered(handlers) && !old(writer.failing) ==>
                var accepts := kind in handlers && handlers[kind].Custom? && handlers[kind].accepts;
                var q := Handshake.Handle(old(View()), MessageOf(Handled(kind, packet)), caps, accepts);
                && ok == !q.stage.Ended?
                && View() == old(View()).(remote := q.remote)
                && q.out == (if writer.data == old(writer.data) then [] else [Own(HELLO, caps)])
    {
      var all := ListCapabilities();
      caps := all;
      if kind !in handlers {
        return false, all;
      }
      match handlers[kind] {
        case OnWelcome => ok, caps := Answer(packet);
        case OnHello => ok := Hear(packet);
        case Custom(accepts) => ok := accepts;
      }
    }
  }

  // ------------------------------------------------------- graceful termination

  datatype Outcome = Accepted | Rejected | Panicked

  /** The channel of AddGracefulTermination with its handler. */
  class Termination {
    var buf: seq<bool>
    var sent: bool
    var closed: bool

    function Channel(): Scheduler.Stop
      reads this
    {
      Scheduler.StopCh(buf, sent, closed)
    }

    constructor ()
      ensures Channel() == Scheduler.StopCh([], false, false)
    {
      buf, sent, closed := [], false, false;
    }

    /** The value, if the packet has one, and then the close. A second packet panics: it
        sends on the closed channel, or closes it again. */
    method Handle(packet: seq<byte>) returns (r: Outcome)
      requires !closed ==> buf == []
      modifies this
      ensures old(closed) <==> r == Outcome.Panicked
      ensures old(closed) ==> Channel() == old(Channel())
      ensures !old(closed) ==>
                match FinishOf(packet)
                case None => r == Rejected && Channel() == Scheduler.StopCh([], old(sent), true)
                case Some(finish) => r == Accepted && Channel() == Scheduler.StopCh([finish], true, true)
    {
      if closed {
        return Outcome.Panicked;
      }
      var finish := FinishOf(packet);
      if finish.Some? {
        buf, sent := buf + [finish.value], true;
      }
      closed := true;
      r := if finish.Some? then Accepted else Rejected;
    }
  }
}
