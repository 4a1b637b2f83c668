/** The line protocol: `Parse` and `Write` (internal/workerproto/proto.go). */
module Framing {
  import opened Bytes
  import opened Json

  const NEWLINE: byte := 10
  const RETURN: byte := 13
  const TILDE: byte := 126

  /** The buffer of the line reader, and the first read of the JSON decoder. */
  const BUFFER: nat := 4096
  const FIRST_READ: nat := 512

  // -------------------------------------------------------------------- lines

  function Newline(s: seq<byte>): (i: nat)
    ensures i <= |s| && (i < |s| ==> s[i] == NEWLINE)
    ensures forall k :: 0 <= k < i ==> s[k] != NEWLINE
  {
    if s == [] || s[0] == NEWLINE then 0 else 1 + Newline(s[1..])
  }

  function DropReturn(line: seq<byte>): seq<byte> {
    if line != [] && line[|line| - 1] == RETURN then line[..|line| - 1] else line
  }

  /** One line and the rest of the input. A line that fills the buffer is split. */
  function NextLine(s: seq<byte>): (r: (seq<byte>, seq<byte>))
    requires s != []
    ensures |r.1| < |s|
  {
    var i := Newline(s);
    if i < BUFFER && i < |s| then (DropReturn(s[..i]), s[i + 1..])
    else if |s| >= BUFFER then
      if s[BUFFER - 1] == RETURN then (s[..BUFFER - 1], s[BUFFER - 1..]) else (s[..BUFFER], s[BUFFER..])
    else (s, [])
  }

  predicate Space3(a: byte, b: byte, c: byte) {
    (a == 0xE1 && b == 0x9A && c == 0x80) ||
    (a == 0xE2 && b == 0x80 && (0x80 <= c <= 0x8A || c == 0xA8 || c == 0xA9 || c == 0xAF)) ||
    (a == 0xE2 && b == 0x81 && c == 0x9F) ||
    (a == 0xE3 && b == 0x80 && c == 0x80)
  }

  predicate Space2(a: byte, b: byte) { a == 0xC2 && (b == 0x85 || b == 0xA0) }

  predicate Space1(a: byte) { 9 <= a <= 13 || a == 32 }

  /** The length of the white space code point at the end of `s`, or 0. */
  function SpaceAtEnd(s: seq<byte>): (n: nat)
    ensures n <= |s|
  {
    var k := |s|;
    if k >= 1 && Space1(s[k - 1]) then 1
    else if k >= 2 && Space2(s[k - 2], s[k - 1]) then 2
    else if k >= 3 && Space3(s[k - 3], s[k - 2], s[k - 1]) then 3
    else 0
  }

  function SpaceAtStart(s: seq<byte>): (n: nat)
    ensures n <= |s|
  {
    if |s| >= 1 && Space1(s[0]) then 1
    else if |s| >= 2 && Space2(s[0], s[1]) then 2
    else if |s| >= 3 && Space3(s[0], s[1], s[2]) then 3
    else 0
  }

  function TrimRight(s: seq<byte>): (t: seq<byte>)
    ensures t <= s
    decreases |s|
  {
    if SpaceAtEnd(s) == 0 then s else TrimRight(s[..|s| - SpaceAtEnd(s)])
  }

  function TrimLeft(s: seq<byte>): seq<byte>
    decreases |s|
  {
    if SpaceAtStart(s) == 0 then s else TrimLeft(s[SpaceAtStart(s)..])
  }

  function Trim(s: seq<byte>): seq<byte> { TrimLeft(TrimRight(s)) }

  // ------------------------------------------------------------------ packets

  const TYPE: seq<byte> := [116, 121, 112, 101]

  function Lower(b: byte): byte { if 65 <= b <= 90 then b + 32 else b }

  /** Equal up to the case of ASCII letters. */
  predicate FoldEq(key: seq<byte>, name: seq<byte>) {
    |key| == |name| && forall i :: 0 <= i < |key| ==> Lower(key[i]) == name[i]
  }

  predicate IsTypeKey(key: seq<byte>) { FoldEq(key, TYPE) }

  datatype Kind = Kind(name: seq<byte>) | NoKind

  /** The `type` of a packet: the last one given; null leaves it, and anything else but a
      string is an error. */
  function PacketKind(members: seq<Member>, kind: seq<byte>): Kind {
    if members == [] then Kind(kind)
    else if !IsTypeKey(members[0].key) || members[0].value.Null? then PacketKind(members[1..], kind)
    else if members[0].value.Str? then PacketKind(members[1..], members[0].value.s)
    else NoKind
  }

  /** How far the decoder has read when it has seen `need` of `total` bytes. */
  function Buffered(capacity: nat, need: nat, total: nat): (n: nat)
    requires need <= total && 0 < capacity
    ensures need <= n <= total
    decreases total - capacity
  {
    if total <= capacity then total
    else if need <= capacity then capacity
    else Buffered(2 * capacity + FIRST_READ, need, total)
  }

  /** What `Parse` does with a trimmed line. `tail` is what the decoder did not read. */
  datatype Action =
    | Skip
    | Log(line: seq<byte>)
    | Packet(kind: seq<byte>, packet: seq<byte>, tail: seq<byte>)
    | OutOfRange

  /** The decoder has read `v` from the line, after the tilde, and left `rest`. */
  function Decoded(line: seq<byte>, v: Value, rest: seq<byte>): Action
    requires |rest| < |line|
  {
    var kind := if v.Obj? then PacketKind(v.members, []) else NoKind;
    if kind.NoKind? || kind.name == [] then Log(line)
    else
      var end := 1 + Buffered(FIRST_READ, |line| - 1 - |rest|, |line| - 1);
      Packet(kind.name, line[1..end], line[end..])
  }

  function Classify(line: seq<byte>): Action {
    if line == [] then Skip
    else if line[0] != TILDE then Log(line)
    else if |line| == 1 then OutOfRange
    else if line[1] != LBRACE then Log(line)
    else
      match ParseValue(line[1..])
      case Bad => Log(line)
      case Ok(v, rest) => Decoded(line, v, rest)
  }

  datatype Event = Handled(kind: seq<byte>, packet: seq<byte>) | Logged(line: seq<byte>)

  datatype End = Finished | ReadError | HandlerError | Panicked

  /** The handler: whether it accepts the last event, given all of them. */
  type Handler = seq<Event> -> bool

  /** The events after one trimmed line, and whether `Parse` ends there. */
  function AfterLine(line: seq<byte>, past: seq<Event>, h: Handler): (seq<Event>, End) {
    match Classify(line)
    case Skip => (past, Finished)
    case Log(text) => (past + [Logged(text)], Finished)
    case OutOfRange => (past, Panicked)
    case Packet(kind, packet, tail) =>
      var now := past + [Handled(kind, packet)];
      if !h(now) then (now, HandlerError)
      else (if tail == [] then now else now + [Logged(tail)], Finished)
  }

  /** The rest of `Parse`, after the events `past`. */
  function ParseFrom(s: seq<byte>, broken: bool, past: seq<Event>, h: Handler): (seq<Event>, End)
    decreases |s|
  {
    if s == [] then (past, if broken then ReadError else Finished)
    else
      var (line, rest) := NextLine(s);
      var (now, end) := AfterLine(Trim(line), past, h);
      if end != Finished then (now, end) else ParseFrom(rest, broken, now, h)
  }

  class LineReader {
    var rest: seq<byte>
    const broken: bool

    constructor (s: seq<byte>, b: bool)
      ensures rest == s && broken == b
    {
      rest, broken := s, b;
    }

    method ReadLine() returns (ended: bool, line: seq<byte>)
      modifies this
      ensures ended <==> old(rest) == []
      ensures ended ==> rest == []
      ensures !ended ==> (line, rest) == NextLine(old(rest))
    {
      if |rest| == 0 {
        return true, [];
      }
      ended := false;
      var i := 0;
      while i < |rest| && i < BUFFER && rest[i] != NEWLINE
        invariant 0 <= i <= |rest| && i <= BUFFER && rest == old(rest)
        invariant Newline(rest) == i + Newline(rest[i..])
      {
        i := i + 1;
      }
      if i < |rest| && i < BUFFER {
        line, rest := rest[..i], rest[i + 1..];
        if |line| > 0 && line[|line| - 1] == RETURN {
          line := line[..|line| - 1];
        }
        return;
      }
      assert i == BUFFER || i == |rest|;
      assert Newline(rest) >= i && (i == |rest| ==> rest[..i] == rest && rest[i..] == []);
      line, rest := rest[..i], rest[i..];
      if i == BUFFER && line[i - 1] == RETURN {
        rest := [RETURN] + rest;
        line := line[..i - 1];
        assert rest == old(rest)[BUFFER - 1..] && line == old(rest)[..BUFFER - 1];
      }
    }
  }

  /** The body of the loop, from the trimmed line on. */
  method OnLine(text: seq<byte>, past: seq<Event>, h: Handler) returns (events: seq<Event>, end: End)
    ensures (events, end) == AfterLine(text, past, h)
  {
    var line := text;
    events, end := past, Finished;
    if |line| == 0 {
      return;
    }
    if line[0] == TILDE {
      if |line| == 1 {
        return events, Panicked;
      }
      if line[1] == LBRACE {
        var packet := ParseValue(line[1..]);
        if packet.Ok? {
          var kind := if packet.value.Obj? then PacketKind(packet.value.members, []) else NoKind;
          if kind.Kind? && kind.name != [] {
            var packetEnd := 1 + Buffered(FIRST_READ, |line| - 1 - |packet.rest|, |line| - 1);
            events := events + [Handled(kind.name, line[1..packetEnd])];
            if !h(events) {
              return events, HandlerError;
            }
            line := line[packetEnd..];
            if |line| == 0 {
              return;
            }
          }
        }
      }
    }
    events := events + [Logged(line)];
  }

  method Parse(rd: LineReader, h: Handler) returns (events: seq<Event>, end: End)
    modifies rd
    ensures (events, end) == ParseFrom(old(rd.rest), rd.broken, [], h)
  {
    events := [];
    while true
      invariant ParseFrom(rd.rest, rd.broken, events, h) == ParseFrom(old(rd.rest), rd.broken, [], h)
      decreases |rd.rest|
    {
      var ended, line := rd.ReadLine();
      if ended {
        return events, if rd.broken then ReadError else Finished;
      }
      events, end := OnLine(Trim(line), events, h);
      if end != Finished {
        return;
      }
    }
  }

  // -------------------------------------------------------------------- Write

  /** A packet with the newline of the encoder and that of Write. */
  function Framed(packet: Value): seq<byte> {
    [TILDE] + Encode(packet) + [NEWLINE, NEWLINE]
  }

  class ByteWriter {
    var data: seq<byte>
    var failing: bool

    constructor ()
      ensures data == [] && !failing
    {
      data, failing := [], false;
    }

    method Write(p: seq<byte>) returns (ok: bool)
      modifies this
      ensures ok == !old(failing) && failing == old(failing)
      ensures data == old(data) + (if ok then p else [])
    {
      ok := !failing;
      if ok {
        data := data + p;
      }
    }
  }

  method Write(w: ByteWriter, packet: Value) returns (ok: bool)
    modifies w
    ensures ok == !old(w.failing) && w.failing == old(w.failing)
    ensures w.data == old(w.data) + (if ok then Framed(packet) else [])
  {
    var buf: seq<byte> := [];
    buf := buf + [TILDE];
    buf := buf + Encode(packet) + [NEWLINE];
    buf := buf + [NEWLINE];
    ok := w.Write(buf);
  }
}
