/** Parsing inverts writing, for packets and plain lines that fit the reader's buffer, and a
    packet arrives exactly when it fits. */
module FramingProofs {
  import opened Bytes
  import opened Json
  import opened JsonProofs
  import opened Framing

  // -------------------------------------------------------------------- lines

  lemma {:induction false} NewlineAt(line: seq<byte>, rest: seq<byte>)
    requires NEWLINE !in line
    ensures Newline(line + [NEWLINE] + rest) == |line|
  {
    if line != [] {
      assert (line + [NEWLINE] + rest)[1..] == line[1..] + [NEWLINE] + rest;
      NewlineAt(line[1..], rest);
    }
  }

  /** How a line can end: at the end of the input, with a newline, or with both; or it is cut. */
  predicate LineEnd(eol: seq<byte>) { eol == [] || eol == [NEWLINE] || eol == [RETURN, NEWLINE] }

  /** Reading a line loses nothing but its end; and it has no end only at the end of the input, or
      where the buffer is full. */
  lemma NextLineSplits(s: seq<byte>) returns (eol: seq<byte>)
    requires s != []
    ensures var (line, rest) := NextLine(s);
            && s == line + eol + rest && LineEnd(eol) && NEWLINE !in line
            && (eol == [] ==> rest == [] || |line| == BUFFER || (|line| == BUFFER - 1 && rest[0] == RETURN))
            && (eol == [NEWLINE] && line != [] ==> line[|line| - 1] != RETURN)
            && |line| <= BUFFER
  {
    var (line, rest) := NextLine(s);
    eol := s[|line|..|s| - |rest|];
    var i := Newline(s);
    if i < BUFFER && i < |s| {
      assert s == s[..i] + [NEWLINE] + s[i + 1..];
      if i > 0 && s[i - 1] == RETURN {
        assert line == s[..i - 1] && eol == [RETURN, NEWLINE];
      } else {
        assert line == s[..i] && eol == [NEWLINE];
      }
    }
  }

  /** A blank line is skipped, with or without a carriage return. */
  lemma BlankLine(rest: seq<byte>, broken: bool, past: seq<Event>, h: Handler)
    ensures ParseFrom([NEWLINE] + rest, broken, past, h) == ParseFrom(rest, broken, past, h)
    ensures ParseFrom([RETURN, NEWLINE] + rest, broken, past, h) == ParseFrom(rest, broken, past, h)
  {
    var s := [NEWLINE] + rest;
    NewlineAt([], rest);
    assert [] + [NEWLINE] + rest == s && s[..0] == [] && s[1..] == rest;
    var t := [RETURN, NEWLINE] + rest;
    NewlineAt([RETURN], rest);
    assert [RETURN] + [NEWLINE] + rest == t;
    assert t[..1] == [RETURN] && t[2..] == rest;
  }

  lemma TrimReturn(line: seq<byte>)
    ensures TrimRight(line + [RETURN]) == TrimRight(line)
  {
    assert (line + [RETURN])[..|line|] == line;
  }

  /** Dropping a carriage return at the end does not change the trimmed line. */
  lemma TrimDropped(line: seq<byte>)
    ensures Trim(DropReturn(line)) == Trim(line)
  {
    if line != [] && line[|line| - 1] == RETURN {
      assert line == line[..|line| - 1] + [RETURN];
      TrimReturn(line[..|line| - 1]);
    }
  }

  /** Reading a line that fits the buffer: all of it, but for white space at its end. */
  lemma WholeLine(line: seq<byte>, rest: seq<byte>)
    requires NEWLINE !in line && |line| <= BUFFER
    ensures var (l, r) := NextLine(line + [NEWLINE] + rest);
            Trim(l) == Trim(line) &&
            (r == rest || r == [NEWLINE] + rest || r == [RETURN, NEWLINE] + rest)
  {
    var s := line + [NEWLINE] + rest;
    NewlineAt(line, rest);
    assert s[..|line|] == line && s[|line| + 1..] == rest;
    TrimDropped(line);
    if |line| == BUFFER {
      assert s[BUFFER..] == [NEWLINE] + rest;
      if s[BUFFER - 1] == RETURN {
        assert s[..BUFFER - 1] == DropReturn(line);
        assert s[BUFFER - 1..] == [RETURN, NEWLINE] + rest;
      }
    }
  }

  /** A line that fits the buffer is handled as a whole, wherever the buffer ends. */
  lemma LineStep(line: seq<byte>, rest: seq<byte>, broken: bool, past: seq<Event>, h: Handler)
    requires NEWLINE !in line && |line| <= BUFFER
    ensures var (now, end) := AfterLine(Trim(line), past, h);
            ParseFrom(line + [NEWLINE] + rest, broken, past, h) ==
            if end != Finished then (now, end) else ParseFrom(rest, broken, now, h)
  {
    WholeLine(line, rest);
    BlankLine(rest, broken, AfterLine(Trim(line), past, h).0, h);
  }

  // ------------------------------------------------------------------ trimming

  /** Printable ASCII is not part of any white space. */
  lemma {:induction false} TrimRightKeeps(s: seq<byte>, j: nat)
    requires j < |s| && 32 < s[j] < 0x80
    ensures |TrimRight(s)| > j
    decreases |s|
  {
    if SpaceAtEnd(s) != 0 {
      assert j < |s| - SpaceAtEnd(s);
      TrimRightKeeps(s[..|s| - SpaceAtEnd(s)], j);
    }
  }

  lemma TrimPrefix(s: seq<byte>, j: nat)
    requires j < |s| && 32 < s[j] < 0x80 && 32 < s[0] < 0x80
    ensures Trim(s) <= s && |Trim(s)| > j
  {
    TrimRightKeeps(s, j);
    assert TrimRight(s)[0] == s[0];
  }

  lemma TrimNothing(s: seq<byte>)
    requires s != [] && 32 < s[0] < 0x80 && 32 < s[|s| - 1] < 0x80
    ensures Trim(s) == s
  {
  }

  // ------------------------------------------------------------------ the items

  /** What is put on the stream: packets, through Write, and lines of other output. */
  datatype Item = Packet(members: seq<Member>) | Plain(line: seq<byte>)

  function KindOf(members: seq<Member>): Kind { PacketKind(CleanMembers(members), []) }

  predicate HasKind(members: seq<Member>) {
    KindOf(members).Kind? && KindOf(members).name != []
  }

  predicate Fits(item: Item) {
    match item
    case Packet(members) =>
      WellFormedMembers(members) && 1 + |Encode(Obj(members))| <= BUFFER
    case Plain(line) =>
      NEWLINE !in line && |line| <= BUFFER && (Trim(line) != [] ==> Trim(line)[0] != TILDE)
  }

  function Written(item: Item): seq<byte> {
    match item
    case Packet(members) => Framed(Obj(members))
    case Plain(line) => line + [NEWLINE]
  }

  function Stream(items: seq<Item>): seq<byte> {
    if items == [] then [] else Written(items[0]) + Stream(items[1..])
  }

  /** A packet without a type is a line like any other. */
  function EventsOf(item: Item): seq<Event> {
    match item
    case Packet(members) =>
      var json := Encode(Obj(members));
      [if HasKind(members) then Handled(KindOf(members).name, json) else Logged([TILDE] + json)]
    case Plain(line) => if Trim(line) == [] then [] else [Logged(Trim(line))]
  }

  predicate AllFit(items: seq<Item>) { forall i :: 0 <= i < |items| ==> Fits(items[i]) }

  function Expected(items: seq<Item>): seq<Event> {
    if items == [] then [] else EventsOf(items[0]) + Expected(items[1..])
  }

  /** The events as far as the handler accepts them. */
  function Deliver(events: seq<Event>, past: seq<Event>, h: Handler): (seq<Event>, bool) {
    if events == [] then (past, true)
    else
      var now := past + [events[0]];
      if events[0].Handled? && !h(now) then (now, false) else Deliver(events[1..], now, h)
  }

  lemma PacketShape(members: seq<Member>)
    requires WellFormedMembers(members)
    ensures var line := [TILDE] + Encode(Obj(members)); Trim(line) == line && NEWLINE !in line
  {
    var line := [TILDE] + Encode(Obj(members));
    ValuePrints(Obj(members));
    MembersPrint(members);
    assert line[|line| - 1] == RBRACE;
    TrimNothing(line);
  }

  lemma PastTilde(line: seq<byte>, text: seq<byte>, end: nat)
    requires line == [TILDE] + text && end <= |text|
    ensures line[1..1 + end] == text[..end] && line[1 + end..] == text[end..]
  {
  }

  /** A packet that the decoder has read, with `rest` after it on the line. */
  lemma PacketAction(line: seq<byte>, v: Value, json: seq<byte>, rest: seq<byte>)
    requires v.Obj? && PacketKind(v.members, []).Kind? && PacketKind(v.members, []).name != []
    requires line == [TILDE] + (json + rest)
    ensures var end := Buffered(FIRST_READ, |json|, |json + rest|);
            Decoded(line, v, rest) ==
            Framing.Packet(PacketKind(v.members, []).name, (json + rest)[..end], (json + rest)[end..])
  {
    var end := Buffered(FIRST_READ, |json|, |json + rest|);
    assert |line| - 1 - |rest| == |json| && |line| - 1 == |json + rest|;
    PastTilde(line, json + rest, end);
  }

  lemma PacketDecoded(members: seq<Member>, json: seq<byte>, rest: seq<byte>)
    requires WellFormedMembers(members) && json == Encode(Obj(members))
    ensures Classify([TILDE] + (json + rest)) == Decoded([TILDE] + (json + rest), Obj(CleanMembers(members)), rest)
  {
    assert ([TILDE] + (json + rest))[1..] == json + rest;
    ValueBack(Obj(members), rest);
  }

  lemma TrailingAction(members: seq<Member>, json: seq<byte>, text: seq<byte>)
    requires WellFormedMembers(members) && HasKind(members) && json == Encode(Obj(members))
    ensures var end := Buffered(FIRST_READ, |json|, |json + text|);
            Classify([TILDE] + (json + text)) ==
            Framing.Packet(KindOf(members).name, (json + text)[..end], (json + text)[end..])
  {
    PacketDecoded(members, json, text);
    PacketAction([TILDE] + (json + text), Obj(CleanMembers(members)), json, text);
  }

  /** The line of a packet, read alone. */
  lemma PacketLine(members: seq<Member>)
    requires WellFormedMembers(members) && HasKind(members)
    ensures Classify([TILDE] + Encode(Obj(members))) ==
            Framing.Packet(KindOf(members).name, Encode(Obj(members)), [])
  {
    var json := Encode(Obj(members));
    TrailingAction(members, json, []);
    assert json + [] == json;
    assert json[..|json|] == json && json[|json|..] == [];
  }

  /** The line of a packet that has no type. */
  lemma UntypedLine(members: seq<Member>)
    requires WellFormedMembers(members) && !HasKind(members)
    ensures Classify([TILDE] + Encode(Obj(members))) == Log([TILDE] + Encode(Obj(members)))
  {
    var json := Encode(Obj(members));
    PacketDecoded(members, json, []);
    assert json + [] == json;
  }

  /** What the handler makes of one item is what `Parse` makes of its line. */
  lemma ItemLine(item: Item, past: seq<Event>, h: Handler)
    requires Fits(item)
    ensures var (now, ok) := Deliver(EventsOf(item), past, h);
            var line := if item.Plain? then Trim(item.line) else [TILDE] + Encode(Obj(item.members));
            AfterLine(line, past, h) == (now, if ok then Finished else HandlerError)
  {
    assert EventsOf(item) != [] ==> EventsOf(item)[1..] == [];
    if item.Packet? {
      if HasKind(item.members) {
        PacketLine(item.members);
      } else {
        UntypedLine(item.members);
      }
    }
  }

  lemma FramedStep(line: seq<byte>, s: seq<byte>, rest: seq<byte>, broken: bool, past: seq<Event>, h: Handler)
    requires NEWLINE !in line && |line| <= BUFFER && Trim(line) == line
    requires s == line + [NEWLINE] + ([NEWLINE] + rest)
    ensures var (now, end) := AfterLine(line, past, h);
            ParseFrom(s, broken, past, h) == if end != Finished then (now, end) else ParseFrom(rest, broken, now, h)
  {
    LineStep(line, [NEWLINE] + rest, broken, past, h);
    var (now, end) := AfterLine(line, past, h);
    BlankLine(rest, broken, now, h);
  }

  lemma PacketStep(members: seq<Member>, rest: seq<byte>, broken: bool, past: seq<Event>, h: Handler)
    requires Fits(Item.Packet(members))
    ensures var (now, end) := AfterLine([TILDE] + Encode(Obj(members)), past, h);
            ParseFrom(Framed(Obj(members)) + rest, broken, past, h) ==
            if end != Finished then (now, end) else ParseFrom(rest, broken, now, h)
  {
    var line := [TILDE] + Encode(Obj(members));
    PacketShape(members);
    assert line + [NEWLINE, NEWLINE] + rest == line + [NEWLINE] + ([NEWLINE] + rest);
    FramedStep(line, Framed(Obj(members)) + rest, rest, broken, past, h);
  }

  lemma ItemStep(item: Item, rest: seq<byte>, broken: bool, past: seq<Event>, h: Handler)
    requires Fits(item)
    ensures var (now, ok) := Deliver(EventsOf(item), past, h);
            ParseFrom(Written(item) + rest, broken, past, h) ==
            if ok then ParseFrom(rest, broken, now, h) else (now, HandlerError)
  {
    ItemLine(item, past, h);
    match item
    case Packet(members) => PacketStep(members, rest, broken, past, h);
    case Plain(line) => LineStep(line, rest, broken, past, h);
  }

  lemma {:induction false} DeliverAppend(a: seq<Event>, b: seq<Event>, past: seq<Event>, h: Handler)
    ensures var (now, ok) := Deliver(a, past, h);
            Deliver(a + b, past, h) == if ok then Deliver(b, now, h) else (now, false)
  {
    if a == [] {
      assert a + b == b;
    } else {
      assert (a + b)[1..] == a[1..] + b;
      DeliverAppend(a[1..], b, past + [a[0]], h);
    }
  }

  /** For any interleaving of packets and lines that fit, `Parse` hands over exactly the
      encoded packets in order and logs exactly the trimmed non-blank lines in order, until
      the handler refuses. */
  lemma {:induction false} ParseInvertsWrite(items: seq<Item>, broken: bool, past: seq<Event>, h: Handler)
    requires AllFit(items)
    ensures var (events, ok) := Deliver(Expected(items), past, h);
            ParseFrom(Stream(items), broken, past, h) ==
            (events, if !ok then HandlerError else if broken then ReadError else Finished)
  {
    if items != [] {
      var (now, ok) := Deliver(EventsOf(items[0]), past, h);
      ItemStep(items[0], Stream(items[1..]), broken, past, h);
      DeliverAppend(EventsOf(items[0]), Expected(items[1..]), past, h);
      if ok {
        ParseInvertsWrite(items[1..], broken, now, h);
      }
    }
  }

  /** The last line of a stream, which need not end with a newline. */
  lemma LastLine(line: seq<byte>, broken: bool, past: seq<Event>, h: Handler)
    requires NEWLINE !in line && |line| <= BUFFER
    ensures var (now, end) := AfterLine(Trim(line), past, h);
            ParseFrom(line, broken, past, h) ==
            (now, if end != Finished then end else if broken then ReadError else Finished)
  {
    if line != [] {
      NewlineAfter(line, |line|);
      assert line[..|line|] == line;
      if |line| == BUFFER && line[BUFFER - 1] == RETURN {
        var front := line[..BUFFER - 1];
        assert line == front + [RETURN];
        TrimReturn(front);
        assert line[BUFFER - 1..] == [RETURN];
        LoneReturn(broken, AfterLine(Trim(line), past, h).0, h);
      }
    }
  }

  lemma LoneReturn(broken: bool, past: seq<Event>, h: Handler)
    ensures ParseFrom([RETURN], broken, past, h) == (past, if broken then ReadError else Finished)
  {
    assert NextLine([RETURN]) == ([RETURN], []);
    assert [RETURN][..0] == [];
  }

  /** What an item is on the stream without the newlines at its end. */
  function Unended(item: Item): seq<byte> {
    match item
    case Packet(members) => [TILDE] + Encode(Obj(members))
    case Plain(line) => line
  }

  /** The last item may lack its newline: it is handed over or logged all the same. */
  lemma {:induction false} ParseInvertsUnended(items: seq<Item>, last: Item, broken: bool, past: seq<Event>, h: Handler)
    requires AllFit(items) && Fits(last)
    ensures var (events, ok) := Deliver(Expected(items) + EventsOf(last), past, h);
            ParseFrom(Stream(items) + Unended(last), broken, past, h) ==
            (events, if !ok then HandlerError else if broken then ReadError else Finished)
  {
    if items == [] {
      assert Stream(items) + Unended(last) == Unended(last);
      assert Expected(items) + EventsOf(last) == EventsOf(last);
      LastItem(last, broken, past, h);
    } else {
      var tail := Stream(items[1..]) + Unended(last);
      var more := Expected(items[1..]) + EventsOf(last);
      var (now, ok) := Deliver(EventsOf(items[0]), past, h);
      FirstOf(items, last);
      ItemStep(items[0], tail, broken, past, h);
      DeliverAppend(EventsOf(items[0]), more, past, h);
      if ok {
        ParseInvertsUnended(items[1..], last, broken, now, h);
      }
    }
  }

  lemma FirstOf(items: seq<Item>, last: Item)
    requires items != []
    ensures Stream(items) + Unended(last) == Written(items[0]) + (Stream(items[1..]) + Unended(last))
    ensures Expected(items) + EventsOf(last) == EventsOf(items[0]) + (Expected(items[1..]) + EventsOf(last))
  {
    FirstJoins(Written(items[0]), Stream(items[1..]), Unended(last));
    FirstJoins(EventsOf(items[0]), Expected(items[1..]), EventsOf(last));
  }

  lemma FirstJoins<T>(a: seq<T>, b: seq<T>, c: seq<T>)
    ensures (a + b) + c == a + (b + c)
  {
  }

  lemma LastItem(item: Item, broken: bool, past: seq<Event>, h: Handler)
    requires Fits(item)
    ensures var (events, ok) := Deliver(EventsOf(item), past, h);
            ParseFrom(Unended(item), broken, past, h) ==
            (events, if !ok then HandlerError else if broken then ReadError else Finished)
  {
    ItemLine(item, past, h);
    match item
    case Packet(members) =>
      PacketShape(members);
      LastLine([TILDE] + Encode(Obj(members)), broken, past, h);
    case Plain(line) => LastLine(line, broken, past, h);
  }

  // ------------------------------------------------------ packets that do not fit

  /** The events so far stay. */
  lemma {:induction false} EventsGrow(s: seq<byte>, broken: bool, past: seq<Event>, h: Handler)
    ensures past <= ParseFrom(s, broken, past, h).0
    decreases |s|
  {
    if s != [] {
      var (line, rest) := NextLine(s);
      var (now, end) := AfterLine(Trim(line), past, h);
      if end == Finished {
        EventsGrow(rest, broken, now, h);
      }
    }
  }

  /** The buffer is full before the line ends. */
  lemma FirstPiece(s: seq<byte>, piece: seq<byte>)
    requires |s| >= BUFFER && s[..BUFFER] == piece && NEWLINE !in piece && piece[BUFFER - 1] != RETURN
    ensures NextLine(s) == (piece, s[BUFFER..])
  {
    NewlineAfter(s, BUFFER);
    assert s[BUFFER - 1] == piece[BUFFER - 1];
  }

  lemma {:induction false} NewlineAfter(s: seq<byte>, k: nat)
    requires k <= |s| && NEWLINE !in s[..k]
    ensures Newline(s) >= k
  {
    if k > 0 {
      assert s[0] == s[..k][0] && s[1..][..k - 1] == s[..k][1..];
      NewlineAfter(s[1..], k - 1);
    }
  }

  /** A beginning of a packet is logged, however it is trimmed. */
  lemma BeginningIsLogged(members: seq<Member>, k: nat)
    requires WellFormedMembers(members) && 0 < k < |Encode(Obj(members))|
    ensures var line := Trim([TILDE] + Encode(Obj(members))[..k]); Classify(line) == Log(line)
  {
    var json := Encode(Obj(members));
    var piece := [TILDE] + json[..k];
    TrimPrefix(piece, 1);
    var line := Trim(piece);
    assert line[0] == TILDE && line[1] == LBRACE;
    assert line[1..] == json[..|line| - 1];
    PrefixIsBad(members, |line| - 1);
  }

  /** The first piece of a packet that is longer than the buffer is logged as plain output. */
  lemma LongPacketIsCut(members: seq<Member>, rest: seq<byte>, broken: bool, past: seq<Event>, h: Handler)
    requires WellFormedMembers(members) && 1 + |Encode(Obj(members))| > BUFFER
    ensures var events := ParseFrom(Framed(Obj(members)) + rest, broken, past, h).0;
            |events| > |past| && events[|past|].Logged?
  {
    var s := Framed(Obj(members)) + rest;
    var piece := [TILDE] + Encode(Obj(members))[..BUFFER - 1];
    ValuePrints(Obj(members));
    assert s[..BUFFER] == piece;
    FirstPiece(s, piece);
    BeginningIsLogged(members, BUFFER - 1);
    EventsGrow(s[BUFFER..], broken, past + [Logged(Trim(piece))], h);
  }

  /** A packet is the next thing handed to the handler exactly when its line, without the
      newline, fits the buffer of 4096 bytes. */
  lemma PacketArrivesExactly(members: seq<Member>, rest: seq<byte>, broken: bool, past: seq<Event>, h: Handler)
    requires WellFormedMembers(members) && HasKind(members)
    ensures var events := ParseFrom(Framed(Obj(members)) + rest, broken, past, h).0;
            |events| > |past| &&
            (events[|past|] == Handled(KindOf(members).name, Encode(Obj(members))) <==>
             1 + |Encode(Obj(members))| <= 4096)
  {
    if 1 + |Encode(Obj(members))| <= BUFFER {
      var item := Item.Packet(members);
      ItemStep(item, rest, broken, past, h);
      var now := past + EventsOf(item);
      assert EventsOf(item)[1..] == [];
      assert now[|past|] == EventsOf(item)[0];
      EventsGrow(rest, broken, now, h);
    } else {
      LongPacketIsCut(members, rest, broken, past, h);
    }
  }

  // --------------------------------------------------------- text after a packet

  lemma HeadOfText(json: seq<byte>, text: seq<byte>, end: nat)
    requires |json| <= end <= |json + text|
    ensures json <= (json + text)[..end]
    ensures (json + text)[..end] + (json + text)[end..] == json + text
    ensures (json + text)[..end] == json <==> end == |json|
  {
  }

  /** What becomes of a trimmed line with a packet `json` and then `text`. */
  lemma TrailingAtEnd(members: seq<Member>, text: seq<byte>)
    requires WellFormedMembers(members) && HasKind(members)
    requires 1 + |Encode(Obj(members))| + |text| <= BUFFER
    ensures var json := Encode(Obj(members));
            TrailingSplit(Classify([TILDE] + json + text), KindOf(members).name, json, text)
  {
    var json := Encode(Obj(members));
    TrailingAction(members, json, text);
    SameLine(json, text);
    TrailingEnd(json, text, KindOf(members).name);
  }

  predicate TrailingSplit(action: Action, kind: seq<byte>, json: seq<byte>, text: seq<byte>) {
    && action.Packet? && action.kind == kind
    && json <= action.packet && action.packet + action.tail == json + text
    && (action.packet == json <==> text == [] || |json| in {512, 1536, 3584})
  }

  /** White space is trimmed off the end of the text, and not off a packet before it. */
  lemma {:induction false} TrimRightAfter(a: seq<byte>, text: seq<byte>)
    requires a != [] && 32 < a[|a| - 1] < 0x80
    ensures TrimRight(a + text) == a + TrimRight(text)
    decreases |text|
  {
    SpaceAfter(a, text);
    var n := SpaceAtEnd(text);
    if n > 0 {
      var front := text[..|text| - n];
      assert (a + text)[..|a + text| - n] == a + front;
      TrimRightAfter(a, front);
    }
  }

  lemma SpaceAfter(a: seq<byte>, text: seq<byte>)
    requires a != [] && 32 < a[|a| - 1] < 0x80
    ensures SpaceAtEnd(a + text) == SpaceAtEnd(text)
  {
    var s := a + text;
    assert |text| >= 1 ==> s[|s| - 1] == text[|text| - 1];
    assert |text| >= 2 ==> s[|s| - 2] == text[|text| - 2];
    assert |text| >= 3 ==> s[|s| - 3] == text[|text| - 3];
    assert |text| == 0 ==> s[|s| - 1] == a[|a| - 1];
    assert |text| == 1 ==> s[|s| - 2] == a[|a| - 1];
    assert |text| == 2 ==> s[|s| - 3] == a[|a| - 1];
  }

  lemma TrimLine(members: seq<Member>, text: seq<byte>)
    requires WellFormedMembers(members)
    ensures var json := Encode(Obj(members)); Trim([TILDE] + json + text) == [TILDE] + json + TrimRight(text)
  {
    var line := [TILDE] + Encode(Obj(members));
    MembersPrint(members);
    assert line[|line| - 1] == RBRACE;
    TrimRightAfter(line, text);
    assert (line + TrimRight(text))[0] == TILDE;
  }

  /** The events that a packet with text behind it gives: the packet with what the decoder has
      read past it, and the rest of the text as a line, if the handler accepts the packet. */
  ghost predicate TrailingEvents(
    events: seq<Event>, past: seq<Event>, h: Handler, kind: seq<byte>, json: seq<byte>, text: seq<byte>)
  {
    exists packet, tail ::
      && json <= packet && packet + tail == json + text
      && (packet == json <==> text == [] || |json| in {512, 1536, 3584})
      && past + [Handled(kind, packet)] <= events
      && (tail != [] && h(past + [Handled(kind, packet)]) ==>
            past + [Handled(kind, packet), Logged(tail)] <= events)
      && (!h(past + [Handled(kind, packet)]) ==> events == past + [Handled(kind, packet)])
  }

  lemma TrailingLine(
    action: Action, line: seq<byte>, rest: seq<byte>, broken: bool, past: seq<Event>, h: Handler,
    kind: seq<byte>, json: seq<byte>, text: seq<byte>)
    requires action == Classify(line) && TrailingSplit(action, kind, json, text)
    ensures var (now, end) := AfterLine(line, past, h);
            TrailingEvents(if end != Finished then now else ParseFrom(rest, broken, now, h).0,
                           past, h, kind, json, text)
  {
    var (now, end) := AfterLine(line, past, h);
    var events := if end != Finished then now else ParseFrom(rest, broken, now, h).0;
    var handled := past + [Handled(kind, action.packet)];
    if end == Finished {
      EventsGrow(rest, broken, now, h);
    }
    assert handled + [Logged(action.tail)] == past + [Handled(kind, action.packet), Logged(action.tail)];
    assert handled <= now <= events;
  }

  /** Text that trails a packet on its line, trimmed at its end, goes to the handler as far as
      the decoder has read ahead; so the handler gets exactly the packet if and only if no text
      but white space follows, or the packet ends where one of the decoder's reads ends. */
  lemma TrailingTextExactly(members: seq<Member>, text: seq<byte>, rest: seq<byte>, broken: bool,
                            past: seq<Event>, h: Handler)
    requires WellFormedMembers(members) && HasKind(members)
    requires NEWLINE !in text && 1 + |Encode(Obj(members))| + |text| <= BUFFER
    ensures var json := Encode(Obj(members));
            var s := [TILDE] + json + text + [NEWLINE] + rest;
            TrailingEvents(ParseFrom(s, broken, past, h).0, past, h, KindOf(members).name, json, TrimRight(text))
  {
    var json, end := Encode(Obj(members)), TrimRight(text);
    PacketShape(members);
    TrimLine(members, text);
    TrailingAtEnd(members, end);
    var line := [TILDE] + json + end;
    TrailingLine(Classify(line), line, rest, broken, past, h, KindOf(members).name, json, end);
    LineStep([TILDE] + json + text, rest, broken, past, h);
  }

  lemma SwallowedAction(members: seq<Member>, text: seq<byte>)
    requires WellFormedMembers(members) && HasKind(members)
    requires |Encode(Obj(members))| + |text| <= 512
    ensures var json := Encode(Obj(members));
            Classify([TILDE] + json + text) == Framing.Packet(KindOf(members).name, json + text, [])
  {
    var json := Encode(Obj(members));
    TrailingAction(members, json, text);
    SameLine(json, text);
    var all := json + text;
    assert all[..|all|] == all && all[|all|..] == [];
  }

  lemma PacketEvents(line: seq<byte>, kind: seq<byte>, packet: seq<byte>, rest: seq<byte>, broken: bool,
                     past: seq<Event>, h: Handler)
    requires Classify(line) == Framing.Packet(kind, packet, [])
    ensures var (now, end) := AfterLine(line, past, h);
            past + [Handled(kind, packet)] <=
            if end != Finished then now else ParseFrom(rest, broken, now, h).0
  {
    EventsGrow(rest, broken, past + [Handled(kind, packet)], h);
  }

  /** For instance, a packet of less than 512 bytes takes any text behind it along, up to there. */
  lemma TextIsSwallowed(members: seq<Member>, text: seq<byte>, rest: seq<byte>, broken: bool,
                        past: seq<Event>, h: Handler)
    requires WellFormedMembers(members) && HasKind(members)
    requires NEWLINE !in text && TrimRight(text) == text && text != []
    requires |Encode(Obj(members))| + |text| <= 512
    ensures var json := Encode(Obj(members));
            var s := [TILDE] + json + text + [NEWLINE] + rest;
            past + [Handled(KindOf(members).name, json + text)] <= ParseFrom(s, broken, past, h).0
  {
    var json := Encode(Obj(members));
    PacketShape(members);
    TrimLine(members, text);
    SwallowedAction(members, text);
    var line := [TILDE] + json + text;
    PacketEvents(line, KindOf(members).name, json + text, rest, broken, past, h);
    LineStep(line, rest, broken, past, h);
  }

  lemma SameLine(json: seq<byte>, text: seq<byte>)
    ensures [TILDE] + json + text == [TILDE] + (json + text)
  {
  }

  lemma TrailingEnd(json: seq<byte>, text: seq<byte>, kind: seq<byte>)
    requires |json| + |text| <= BUFFER
    ensures var end := Buffered(FIRST_READ, |json|, |json + text|);
            TrailingSplit(Framing.Packet(kind, (json + text)[..end], (json + text)[end..]), kind, json, text)
  {
    ReadsEnd(|json|, |json + text|);
    HeadOfText(json, text, Buffered(FIRST_READ, |json|, |json + text|));
  }

  lemma ReadsEnd(need: nat, total: nat)
    requires need <= total <= BUFFER
    ensures Buffered(FIRST_READ, need, total) == need <==> need == total || need in {512, 1536, 3584}
  {
    assert Buffered(512, need, total) ==
           if total <= 512 then total else if need <= 512 then 512 else Buffered(1536, need, total);
    assert Buffered(1536, need, total) ==
           if total <= 1536 then total else if need <= 1536 then 1536 else Buffered(3584, need, total);
    assert Buffered(3584, need, total) ==
           if total <= 3584 then total else if need <= 3584 then 3584 else Buffered(7680, need, total);
  }

  // ------------------------------------------------------------------ the panic

  /** The trimmed lines that ReadLine cuts a stream into. */
  function Lines(s: seq<byte>): seq<seq<byte>>
    decreases |s|
  {
    if s == [] then []
    else
      var (line, rest) := NextLine(s);
      [Trim(line)] + Lines(rest)
  }

  /** What a line gives the handler and the log, if the handler accepts it. */
  function Said(line: seq<byte>): seq<Event> {
    match Classify(line)
    case Log(text) => [Logged(text)]
    case Packet(kind, packet, tail) => [Handled(kind, packet)] + if tail == [] then [] else [Logged(tail)]
    case _ => []
  }

  function AllSaid(lines: seq<seq<byte>>): seq<Event> {
    if lines == [] then [] else Said(lines[0]) + AllSaid(lines[1..])
  }

  lemma LineDelivers(line: seq<byte>, past: seq<Event>, h: Handler)
    ensures line == [TILDE] ==> AfterLine(line, past, h) == (past, Panicked)
    ensures line != [TILDE] ==>
              var (now, ok) := Deliver(Said(line), past, h);
              AfterLine(line, past, h) == (now, if ok then Finished else HandlerError)
  {
    if line != [TILDE] {
      assert line != [] && line[0] == TILDE ==> |line| != 1;
      var events := Said(line);
      if events != [] {
        var now := past + [events[0]];
        assert Deliver(events, past, h) ==
               if events[0].Handled? && !h(now) then (now, false) else Deliver(events[1..], now, h);
        if |events| == 2 {
          assert events[1..] == [events[1]] && events[1].Logged?;
          assert Deliver(events[1..], now, h) == Deliver([], now + [events[1]], h);
        }
      }
    }
  }

  /** Line `i` is a lone tilde, and the handler accepts all that comes before it. */
  predicate TildeAt(lines: seq<seq<byte>>, i: nat, past: seq<Event>, h: Handler) {
    i < |lines| && lines[i] == [TILDE] && Deliver(AllSaid(lines[..i]), past, h).1
  }

  lemma TildeLater(lines: seq<seq<byte>>, i: nat, past: seq<Event>, h: Handler)
    requires lines != [] && lines[0] != [TILDE]
    ensures var (now, end) := AfterLine(lines[0], past, h);
            TildeAt(lines, i, past, h) <==> i > 0 && end == Finished && TildeAt(lines[1..], i - 1, now, h)
  {
    if 0 < i < |lines| {
      assert lines[..i][1..] == lines[1..][..i - 1];
      LineDelivers(lines[0], past, h);
      DeliverAppend(Said(lines[0]), AllSaid(lines[1..][..i - 1]), past, h);
    }
  }

  ghost predicate HasTilde(lines: seq<seq<byte>>, past: seq<Event>, h: Handler) {
    exists i: nat :: TildeAt(lines, i, past, h)
  }

  lemma HasTildeLater(lines: seq<seq<byte>>, past: seq<Event>, h: Handler)
    requires lines != [] && lines[0] != [TILDE]
    ensures var (now, end) := AfterLine(lines[0], past, h);
            HasTilde(lines, past, h) <==> end == Finished && HasTilde(lines[1..], now, h)
  {
    var (now, end) := AfterLine(lines[0], past, h);
    if HasTilde(lines, past, h) {
      var i: nat :| TildeAt(lines, i, past, h);
      TildeLater(lines, i, past, h);
      assert TildeAt(lines[1..], i - 1, now, h);
    }
    if end == Finished && HasTilde(lines[1..], now, h) {
      var i: nat :| TildeAt(lines[1..], i, now, h);
      TildeLater(lines, i + 1, past, h);
    }
  }

  /** `Parse` indexes past the end of a line exactly when some line of the stream trims to a
      lone tilde and the handler refuses nothing before it. */
  lemma {:induction false} PanicsExactly(s: seq<byte>, broken: bool, past: seq<Event>, h: Handler)
    ensures ParseFrom(s, broken, past, h).1 == Panicked <==> HasTilde(Lines(s), past, h)
    decreases |s|
  {
    if s != [] {
      var (line, rest) := NextLine(s);
      var lines := Lines(s);
      var (now, end) := AfterLine(lines[0], past, h);
      assert lines[0] == Trim(line) && lines[1..] == Lines(rest);
      LineDelivers(lines[0], past, h);
      if lines[0] == [TILDE] {
        assert AllSaid(lines[..0]) == [];
        assert TildeAt(lines, 0, past, h);
      } else {
        HasTildeLater(lines, past, h);
        PanicsExactly(rest, broken, now, h);
      }
    }
  }

  lemma TildeLine(rest: seq<byte>, broken: bool, past: seq<Event>, h: Handler)
    ensures ParseFrom([TILDE] + [NEWLINE] + rest, broken, past, h) == (past, Panicked)
  {
    var line := [TILDE];
    TrimNothing(line);
    LineDelivers(line, past, h);
    LineStep(line, rest, broken, past, h);
  }

  lemma PlainLine(line: seq<byte>, past: seq<Event>, h: Handler)
    requires Fits(Plain(line)) && Trim(line) != []
    ensures AfterLine(Trim(line), past, h) == (past + [Logged(Trim(line))], Finished)
  {
  }

  /** For instance, after any line of output, which is logged, and whatever follows. */
  lemma LoneTildePanics(line: seq<byte>, rest: seq<byte>, broken: bool, past: seq<Event>, h: Handler)
    requires Fits(Plain(line)) && Trim(line) != []
    ensures ParseFrom(line + [NEWLINE] + ([TILDE] + [NEWLINE] + rest), broken, past, h) ==
            (past + [Logged(Trim(line))], Panicked)
  {
    var tail := [TILDE] + [NEWLINE] + rest;
    var now := past + [Logged(Trim(line))];
    TildeLine(rest, broken, now, h);
    PlainLine(line, past, h);
    LineStep(line, tail, broken, past, h);
  }
}
