/** The packets of the worker protocol as JSON objects, and what they mean to the communicator
    that receives them (internal/workerproto/api.go:118-161). */
module Packets {
  import opened Bytes
  import opened Wrappers
  import opened Json
  import opened Framing

  type Text = seq<byte>

  /** What a packet stands for. A greeting whose list of capabilities is not one of strings is
      malformed; any other packet of the application has a type and its members, the type among
      them. A packet without a type is a line of output to its reader. */
  datatype Message =
    | Welcome(caps: seq<Text>) | Hello(caps: seq<Text>) | Malformed(kind: Text)
    | App(kind: Text, body: seq<Member>)
    | Untyped

  const WELCOME: seq<byte> := [119, 101, 108, 99, 111, 109, 101]
  const HELLO: seq<byte> := [104, 101, 108, 108, 111]
  const CAPABILITIES: seq<byte> := [99, 97, 112, 97, 98, 105, 108, 105, 116, 105, 101, 115]

  /** The types that have built-in handlers. */
  predicate Reserved(kind: Text) { kind == WELCOME || kind == HELLO }

  /** Neither a greeting nor taken for one. */
  predicate Plain(m: Message) { m.App? || m.Untyped? }

  function Texts(caps: seq<Text>): seq<Value> {
    if caps == [] then [] else [Str(caps[0])] + Texts(caps[1..])
  }

  function HelloMembers(kind: Text, caps: seq<Text>): seq<Member> {
    [Member(TYPE, Str(kind)), Member(CAPABILITIES, Arr(Texts(caps)))]
  }

  /** A list of strings, read into memory that holds `held` from an earlier list: null leaves an
      element as it was, and there it is empty past the end. */
  function StringsOf(items: seq<Value>, held: seq<Text>): Option<seq<Text>> {
    if items == [] then Some([])
    else if !items[0].Str? && !items[0].Null? then None
    else
      match StringsOf(items[1..], if held == [] then [] else held[1..])
      case None => None
      case Some(more) =>
        Some([if items[0].Str? then items[0].s else if held == [] then [] else held[0]] + more)
  }

  /** The memory after a list has been read into it; the empty list gets new memory. */
  function Kept(given: seq<Text>, held: seq<Text>): seq<Text> {
    if given == [] then [] else if |given| < |held| then given + held[|given|..] else given
  }

  /** The `capabilities` of a packet: the last ones given. `held` is what the memory of the list
      holds, at and past its end. */
  function CapsFrom(members: seq<Member>, caps: seq<Text>, held: seq<Text>): Option<seq<Text>> {
    if members == [] then Some(caps)
    else if !FoldEq(members[0].key, CAPABILITIES) then CapsFrom(members[1..], caps, held)
    else
      match members[0].value
      case Null => CapsFrom(members[1..], [], [])
      case Arr(items) =>
        (match StringsOf(items, held)
         case None => None
         case Some(given) => CapsFrom(members[1..], given, Kept(given, held)))
      case _ => None
  }

  function Greeting(kind: Text, caps: seq<Text>): Message {
    if kind == WELCOME then Welcome(caps) else Hello(caps)
  }

  /** The message that an object stands for, once decoded. */
  function Meaning(members: seq<Member>): Message {
    match PacketKind(members, [])
    case NoKind => Untyped
    case Kind(kind) =>
      if kind == [] then Untyped
      else if !Reserved(kind) then App(kind, members)
      else
        match CapsFrom(members, [], [])
        case None => Malformed(kind)
        case Some(caps) => Greeting(kind, caps)
  }

  predicate AllValid(caps: seq<Text>) { forall i :: 0 <= i < |caps| ==> ValidText(caps[i]) }

  /** What is left of a list of texts after a trip through JSON. */
  function CleanAll(caps: seq<Text>): seq<Text> {
    if caps == [] then [] else [Clean(caps[0])] + CleanAll(caps[1..])
  }

  lemma {:induction false} ValidAreClean(caps: seq<Text>)
    requires AllValid(caps)
    ensures CleanAll(caps) == caps
  {
    if caps != [] {
      ValidIsClean(caps[0]);
      ValidAreClean(caps[1..]);
    }
  }

  lemma {:induction false} TextsBack(caps: seq<Text>)
    ensures WellFormedItems(Texts(caps)) && CleanItems(Texts(caps)) == Texts(CleanAll(caps))
    ensures StringsOf(Texts(caps), []) == Some(caps)
  {
    if caps != [] {
      TextsBack(caps[1..]);
      assert Texts(caps)[1..] == Texts(caps[1..]);
      assert CleanAll(caps)[1..] == CleanAll(caps[1..]);
      assert [caps[0]] + caps[1..] == caps;
    }
  }

  lemma {:induction false} AsciiIsValid(s: seq<byte>)
    requires forall i :: 0 <= i < |s| ==> s[i] < 0x80
    ensures ValidText(s)
  {
    if s != [] {
      AsciiIsValid(s[1..]);
    }
  }

  lemma WordsAreClean()
    ensures Clean(TYPE) == TYPE && Clean(CAPABILITIES) == CAPABILITIES
  {
    AsciiIsValid(TYPE);
    ValidIsClean(TYPE);
    AsciiIsValid(CAPABILITIES);
    ValidIsClean(CAPABILITIES);
  }

  lemma CleanOne(a: Member)
    ensures CleanMembers([a]) == [Member(Clean(a.key), CleanValue(a.value))]
    ensures WellFormedMembers([a]) == WellFormed(a.value)
  {
    CleanOneMember([a]);
    assert WellFormedMembers([a][1..]);
  }

  lemma CleanTwo(a: Member, b: Member)
    ensures CleanMembers([a, b]) ==
            [Member(Clean(a.key), CleanValue(a.value)), Member(Clean(b.key), CleanValue(b.value))]
    ensures WellFormedMembers([a, b]) == (WellFormed(a.value) && WellFormed(b.value))
  {
    assert [a, b][1..] == [b];
    CleanOne(b);
  }

  lemma HelloIsClean(kind: Text, caps: seq<Text>)
    requires ValidText(kind)
    ensures WellFormedMembers(HelloMembers(kind, caps))
    ensures CleanMembers(HelloMembers(kind, caps)) == HelloMembers(kind, CleanAll(caps))
  {
    WordsAreClean();
    ValidIsClean(kind);
    TextsBack(caps);
    CleanTwo(Member(TYPE, Str(kind)), Member(CAPABILITIES, Arr(Texts(caps))));
  }

  lemma HelloKind(kind: Text, caps: seq<Text>)
    ensures PacketKind(HelloMembers(kind, caps), []) == Kind(kind)
  {
    var ms := HelloMembers(kind, caps);
    assert ms[1..] == [ms[1]] && ms[1..][1..] == [];
    assert PacketKind(ms[1..], kind) == Kind(kind);
  }

  lemma HelloCaps(kind: Text, caps: seq<Text>)
    requires StringsOf(Texts(caps), []) == Some(caps)
    ensures CapsFrom(HelloMembers(kind, caps), [], []) == Some(caps)
  {
    var ms := HelloMembers(kind, caps);
    assert ms[1..] == [ms[1]] && ms[1..][1..] == [];
    assert CapsFrom(ms[1..], [], []) == Some(caps);
  }

  lemma WordsAreAscii()
    ensures forall i :: 0 <= i < |WELCOME| ==> WELCOME[i] < 0x80
    ensures forall i :: 0 <= i < |HELLO| ==> HELLO[i] < 0x80
    ensures |WELCOME| == 7 && |HELLO| == 5
  {
  }

  lemma ReservedAreTexts()
    ensures ValidText(WELCOME) && ValidText(HELLO) && WELCOME != HELLO
  {
    WordsAreAscii();
    AsciiIsValid(WELCOME);
    AsciiIsValid(HELLO);
  }

  /** The message that a packet stands for once it has been written and read. */
  function Carried(members: seq<Member>): Message { Meaning(CleanMembers(members)) }

  lemma MeaningOfGreeting(members: seq<Member>, kind: Text, caps: seq<Text>)
    requires PacketKind(members, []) == Kind(kind) && Reserved(kind)
    requires CapsFrom(members, [], []) == Some(caps)
    ensures Meaning(members) == Greeting(kind, caps)
  {
  }

  lemma CarriedAs(members: seq<Member>, clean: seq<Member>)
    requires CleanMembers(members) == clean
    ensures Carried(members) == Meaning(clean)
  {
  }

  /** A greeting carries the capabilities that it lists, as far as they are valid text. */
  lemma GreetingMeans(kind: Text, caps: seq<Text>)
    requires Reserved(kind)
    ensures Carried(HelloMembers(kind, caps)) == Greeting(kind, CleanAll(caps))
  {
    var clean := CleanAll(caps);
    ReservedAreTexts();
    HelloIsClean(kind, caps);
    TextsBack(clean);
    HelloKind(kind, clean);
    HelloCaps(kind, clean);
    MeaningOfGreeting(HelloMembers(kind, clean), kind, clean);
    CarriedAs(HelloMembers(kind, caps), HelloMembers(kind, clean));
  }
}
