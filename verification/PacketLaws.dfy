/** The packets as they stand on the wire, byte by byte, and what is read from packets that this
    writer would not write (internal/workerproto). */
module PacketLaws {
  import opened Bytes
  import opened Wrappers
  import opened Json
  import opened JsonLaws
  import opened Framing
  import opened Packets
  import opened Communicator

  // ------------------------------------------------------------------- the words

  lemma Words()
    ensures TYPE == Ascii("type") && CAPABILITIES == Ascii("capabilities") && FINISH_TASKS == Ascii("finish-tasks")
    ensures WELCOME == Ascii("welcome") && HELLO == Ascii("hello")
    ensures NULL == Ascii("null") && TRUE == Ascii("true") && FALSE == Ascii("false")
  {
  }

  /** A text that needs no escapes. */
  predicate Simple(s: seq<byte>) {
    forall i :: 0 <= i < |s| ==> 32 <= s[i] < 128 && s[i] !in {34, 92, 38, 60, 62}
  }

  lemma {:induction false} SimpleString(s: seq<byte>)
    requires Simple(s)
    ensures EncodeString(s) == s + [34]
  {
    if s != [] {
      assert s == [s[0]] + s[1..];
      SimpleString(s[1..]);
    }
  }

  /** Every escape that the writer uses. */
  lemma SpecialString(s: seq<byte>)
    ensures EncodeString([34] + s) == Ascii("\\\"") + EncodeString(s)
    ensures EncodeString([92] + s) == Ascii("\\\\") + EncodeString(s)
    ensures EncodeString([10] + s) == Ascii("\\n") + EncodeString(s)
    ensures EncodeString([13] + s) == Ascii("\\r") + EncodeString(s)
    ensures EncodeString([9] + s) == Ascii("\\t") + EncodeString(s)
  {
    SpecialUnit(34, s, Ascii("\\\""));
    SpecialUnit(92, s, Ascii("\\\\"));
    SpecialUnit(10, s, Ascii("\\n"));
    SpecialUnit(13, s, Ascii("\\r"));
    SpecialUnit(9, s, Ascii("\\t"));
  }

  lemma SpecialUnit(c: byte, s: seq<byte>, code: seq<byte>)
    requires c < 128 && UnitCode([c] + s) == code
    ensures EncodeString([c] + s) == code + EncodeString(s)
  {
    assert ([c] + s)[1..] == s;
  }

  /** Other control characters, and the three characters of HTML, have an escape of four digits. */
  lemma ControlString(c: byte, s: seq<byte>)
    requires (c < 32 && c !in {9, 10, 13}) || c in {38, 60, 62}
    ensures var high, low := HexDigit(c / 16), HexDigit(c % 16);
            EncodeString([c] + s) == Ascii("\\u00") + [high, low] + EncodeString(s)
  {
    assert HexDigit(0) == 48;
    SpecialUnit(c, s, Ascii("\\u00") + [HexDigit(c / 16), HexDigit(c % 16)]);
  }

  /** The two line separators of JavaScript are escaped, and every other code point beyond ASCII is
      written as it is. */
  lemma RuneString(u: nat, s: seq<byte>)
    requires Scalar(u) && u >= 0x80
    ensures EncodeString(EncodeRune(u) + s) ==
            (if u == 0x2028 then Ascii("\\u2028") else if u == 0x2029 then Ascii("\\u2029") else EncodeRune(u)) +
            EncodeString(s)
  {
    var r := EncodeRune(u);
    RuneBack(u, s);
    HeadRune(r, s);
    SeparatorExactly(u, s);
    HighByte(u);
    assert (r + s)[0] == r[0];
    if u == 0x2028 || u == 0x2029 {
      SeparatorEscape(u);
    }
  }

  lemma HeadRune(r: seq<byte>, s: seq<byte>)
    ensures (r + s)[..|r|] == r && (r + s)[|r|..] == s
  {
  }

  lemma HighByte(u: nat)
    requires Scalar(u) && u >= 0x80
    ensures EncodeRune(u)[0] >= 0xC0
  {
  }

  lemma SeparatorEscape(u: nat)
    requires u == 0x2028 || u == 0x2029
    ensures HexEscape(u) == if u == 0x2028 then Ascii("\\u2028") else Ascii("\\u2029")
  {
  }

  lemma SeparatorExactly(u: nat, s: seq<byte>)
    requires Scalar(u) && u >= 0x80
    ensures LineSeparator(EncodeRune(u) + s) <==> u == 0x2028 || u == 0x2029
    ensures u == 0x2028 || u == 0x2029 ==> SeparatorRune(EncodeRune(u) + s) == u
  {
    var r := EncodeRune(u);
    assert (r + s)[0] == r[0] && (r + s)[1] == r[1];
    if u >= 0x800 {
      assert (r + s)[2] == r[2];
      if u < 0x1_0000 {
        FourBytes(0, u / 4096, u / 64 % 64, u % 64);
      }
    }
  }

  /** A list of simple strings, with commas between them. */
  function Quoted(caps: seq<Text>): seq<byte> {
    if caps == [] then []
    else [34] + caps[0] + [34] + if |caps| == 1 then [] else Ascii(",") + Quoted(caps[1..])
  }

  predicate AllSimple(caps: seq<Text>) { forall i :: 0 <= i < |caps| ==> Simple(caps[i]) }

  lemma {:induction false} QuotedItems(caps: seq<Text>)
    requires AllSimple(caps) && caps != []
    ensures EncodeItems(Texts(caps)) == Quoted(caps) + [93]
  {
    var items := Texts(caps);
    var first := [34] + caps[0] + [34];
    SimpleString(caps[0]);
    assert items == [Str(caps[0])] + Texts(caps[1..]);
    assert items[1..] == Texts(caps[1..]) && |Texts(caps[1..])| == |caps| - 1 by {
      TextsLength(caps[1..]);
    }
    assert Encode(Str(caps[0])) == first;
    if |caps| == 1 {
      assert EncodeItems(items) == first + [93];
      assert Quoted(caps) == first + [];
    } else {
      QuotedItems(caps[1..]);
      NextItem(items, first, Quoted(caps[1..]));
      CommaIs();
      assert Quoted(caps) == first + ([44] + Quoted(caps[1..]));
    }
  }

  lemma CommaIs()
    ensures Ascii(",") == [44]
  {
  }

  lemma NextItem(items: seq<Value>, first: seq<byte>, more: seq<byte>)
    requires |items| > 1 && Encode(items[0]) == first && EncodeItems(items[1..]) == more + [93]
    ensures EncodeItems(items) == (first + ([44] + more)) + [93]
  {
    assert first + ([44] + (more + [93])) == (first + ([44] + more)) + [93];
  }

  lemma {:induction false} TextsLength(caps: seq<Text>)
    ensures |Texts(caps)| == |caps|
  {
    if caps != [] {
      TextsLength(caps[1..]);
    }
  }

  lemma TwoMembers(a: Member, b: Member, first: seq<byte>, second: seq<byte>)
    requires EncodeMember(a) == first && EncodeMember(b) == second
    ensures EncodeMembers([a, b]) == first + ([44] + (second + [125]))
  {
    assert [a, b][1..] == [b];
    assert EncodeMembers([b]) == second + [125];
  }

  lemma MemberText(key: seq<byte>, v: Value)
    requires Simple(key)
    ensures EncodeMember(Member(key, v)) == [34] + (key + ([34, 58] + Encode(v)))
  {
    SimpleString(key);
    JoinMember(key, Encode(v));
  }

  lemma JoinMember(key: seq<byte>, text: seq<byte>)
    ensures [34] + (key + [34]) + [58] + text == [34] + (key + ([34, 58] + text))
  {
    assert [34, 58] == [34] + [58];
  }

  lemma ListText(caps: seq<Text>)
    requires AllSimple(caps)
    ensures Encode(Arr(Texts(caps))) == [91] + (Quoted(caps) + [93])
  {
    if caps != [] {
      QuotedItems(caps);
    }
  }

  /** The fixed parts of a greeting. */
  lemma GreetingParts(kind: seq<byte>, list: seq<byte>)
    ensures [126] + ([123] + (([34] + (TYPE + ([34, 58] + ([34] + (kind + [34]))))) +
                              ([44] + (([34] + (CAPABILITIES + ([34, 58] + ([91] + (list + [93]))))) + [125])))) +
            [10, 10] ==
            Ascii("~{\"type\":\"") + (kind + (Ascii("\",\"capabilities\":[") + (list + Ascii("]}\n\n"))))
  {
    var a, b, c := Ascii("~{\"type\":\""), Ascii("\",\"capabilities\":["), Ascii("]}\n\n");
    assert a == [126, 123, 34] + TYPE + [34, 58, 34];
    assert b == [34, 44, 34] + CAPABILITIES + [34, 58, 91];
    assert c == [93, 125, 10, 10];
    Glue(TYPE, kind, CAPABILITIES, list, a, b, c);
  }

  lemma Glue(key: seq<byte>, kind: seq<byte>, word: seq<byte>, list: seq<byte>, a: seq<byte>, b: seq<byte>, c: seq<byte>)
    requires a == [126, 123, 34] + key + [34, 58, 34] && b == [34, 44, 34] + word + [34, 58, 91]
    requires c == [93, 125, 10, 10]
    ensures [126] + ([123] + (([34] + (key + ([34, 58] + ([34] + (kind + [34]))))) +
                              ([44] + (([34] + (word + ([34, 58] + ([91] + (list + [93]))))) + [125])))) +
            [10, 10] == a + (kind + (b + (list + c)))
  {
    var inner := [91] + (list + [93]);
    var second := [34] + (word + ([34, 58] + inner));
    var first := [34] + (key + ([34, 58] + ([34] + (kind + [34]))));
    assert second == [34] + word + [34, 58, 91] + (list + [93]);
    assert first == [34] + key + [34, 58, 34] + (kind + [34]);
    var tail := [44] + (second + [125]);
    assert [34] + tail + [10, 10] == b + (list + c) by {
      assert [34] + ([44] + ([34] + word + [34, 58, 91])) == b;
      assert (list + [93]) + [125] + [10, 10] == list + c;
    }
    assert [126] + ([123] + first) == a + (kind + [34]);
    assert [126] + ([123] + (first + tail)) + [10, 10] == ([126] + ([123] + first)) + (tail + [10, 10]);
    assert a + (kind + [34]) + (tail + [10, 10]) == a + (kind + ([34] + tail + [10, 10]));
  }

  lemma StringMember(key: seq<byte>, kind: Text)
    requires Simple(key) && Simple(kind)
    ensures EncodeMember(Member(key, Str(kind))) == [34] + (key + ([34, 58] + ([34] + (kind + [34]))))
  {
    MemberText(key, Str(kind));
    SimpleString(kind);
  }

  lemma ListMember(key: seq<byte>, caps: seq<Text>)
    requires Simple(key) && AllSimple(caps)
    ensures EncodeMember(Member(key, Arr(Texts(caps)))) ==
            [34] + (key + ([34, 58] + ([91] + (Quoted(caps) + [93]))))
  {
    ListText(caps);
    MemberText(key, Arr(Texts(caps)));
  }

  lemma PairText(word: seq<byte>, kind: Text, key: seq<byte>, caps: seq<Text>)
    requires Simple(word) && Simple(key) && Simple(kind) && AllSimple(caps)
    ensures EncodeMembers([Member(word, Str(kind)), Member(key, Arr(Texts(caps)))]) ==
            ([34] + (word + ([34, 58] + ([34] + (kind + [34]))))) +
            ([44] + (([34] + (key + ([34, 58] + ([91] + (Quoted(caps) + [93]))))) + [125]))
  {
    StringMember(word, kind);
    ListMember(key, caps);
    TwoMembers(Member(word, Str(kind)), Member(key, Arr(Texts(caps))),
               [34] + (word + ([34, 58] + ([34] + (kind + [34])))),
               [34] + (key + ([34, 58] + ([91] + (Quoted(caps) + [93])))));
  }

  lemma KeysAreSimple()
    ensures Simple(TYPE) && Simple(CAPABILITIES)
  {
  }

  lemma GreetingMembers(kind: Text, caps: seq<Text>)
    requires Simple(kind) && AllSimple(caps)
    ensures EncodeMembers(HelloMembers(kind, caps)) ==
            ([34] + (TYPE + ([34, 58] + ([34] + (kind + [34]))))) +
            ([44] + (([34] + (CAPABILITIES + ([34, 58] + ([91] + (Quoted(caps) + [93]))))) + [125]))
  {
    KeysAreSimple();
    PairText(TYPE, kind, CAPABILITIES, caps);
  }

  lemma FramedObject(members: seq<Member>, text: seq<byte>)
    requires EncodeMembers(members) == text
    ensures Framed(Obj(members)) == [126] + ([123] + text) + [10, 10]
  {
  }

  /** A greeting on the wire, for types and capabilities of simple text. */
  lemma GreetingOnTheWire(kind: Text, caps: seq<Text>)
    requires Simple(kind) && AllSimple(caps)
    ensures Framed(Obj(HelloMembers(kind, caps))) ==
            Ascii("~{\"type\":\"") + (kind + (Ascii("\",\"capabilities\":[") + (Quoted(caps) + Ascii("]}\n\n"))))
  {
    var list := Quoted(caps);
    GreetingMembers(kind, caps);
    FramedObject(HelloMembers(kind, caps),
                 ([34] + (TYPE + ([34, 58] + ([34] + (kind + [34]))))) +
                 ([44] + (([34] + (CAPABILITIES + ([34, 58] + ([91] + (list + [93]))))) + [125])));
    GreetingParts(kind, list);
  }

  // ---------------------------------------------------- one member among any others

  /** The only member with this name is the one at `i`. */
  predicate OnlyAt(members: seq<Member>, name: seq<byte>, i: nat) {
    i < |members| && forall j :: 0 <= j < |members| ==> (FoldEq(members[j].key, name) <==> j == i)
  }

  predicate Without(members: seq<Member>, name: seq<byte>) {
    forall j :: 0 <= j < |members| ==> !FoldEq(members[j].key, name)
  }

  lemma OnlyLater(members: seq<Member>, name: seq<byte>, i: nat)
    requires OnlyAt(members, name, i)
    ensures i > 0 ==> OnlyAt(members[1..], name, i - 1)
    ensures i == 0 ==> Without(members[1..], name)
  {
  }

  /** Names are compared without regard to the case of letters, and otherwise byte by byte. */
  lemma FoldExactly(key: seq<byte>, name: seq<byte>)
    requires forall i :: 0 <= i < |name| ==> !(65 <= name[i] <= 90)
    ensures FoldEq(key, name) <==>
            |key| == |name| &&
            forall i :: 0 <= i < |key| ==> key[i] == name[i] || (97 <= name[i] <= 122 && key[i] == name[i] - 32)
  {
  }

  /** The packets that the communicators do not take for greetings: those of another type, or none. */
  lemma PlainExactly(members: seq<Member>)
    ensures Plain(Meaning(members)) <==>
            PacketKind(members, []) != Kind(Ascii("welcome")) && PacketKind(members, []) != Kind(Ascii("hello"))
  {
    Words();
  }

  lemma {:induction false} NoType(members: seq<Member>, kind: seq<byte>)
    requires Without(members, TYPE)
    ensures PacketKind(members, kind) == Kind(kind)
  {
    if members != [] {
      NoType(members[1..], kind);
    }
  }

  /** The type of a packet, wherever in it it stands: a string is the type, null is none, and
      anything else is an error. */
  lemma {:induction false} TypeWherever(members: seq<Member>, i: nat, kind: seq<byte>)
    requires OnlyAt(members, TYPE, i)
    ensures PacketKind(members, kind) ==
            match members[i].value
            case Str(s) => Kind(s)
            case Null => Kind(kind)
            case _ => NoKind
  {
    OnlyLater(members, TYPE, i);
    if i == 0 {
      if members[0].value.Str? {
        NoType(members[1..], members[0].value.s);
      } else if members[0].value.Null? {
        NoType(members[1..], kind);
      }
    } else {
      TypeWherever(members[1..], i - 1, kind);
    }
  }

  lemma {:induction false} NoCaps(members: seq<Member>, caps: seq<Text>, held: seq<Text>)
    requires Without(members, CAPABILITIES)
    ensures CapsFrom(members, caps, held) == Some(caps)
  {
    if members != [] {
      NoCaps(members[1..], caps, held);
    }
  }

  /** The strings of a list in which each item is a string, or null for the empty one. */
  predicate Spells(items: seq<Value>, caps: seq<Text>) {
    |items| == |caps| &&
    forall i :: 0 <= i < |items| ==> items[i] == Str(caps[i]) || (items[i].Null? && caps[i] == [])
  }

  lemma {:induction false} SpelledList(items: seq<Value>, caps: seq<Text>)
    requires Spells(items, caps)
    ensures StringsOf(items, []) == Some(caps)
  {
    if items != [] {
      SpelledList(items[1..], caps[1..]);
      assert caps == [caps[0]] + caps[1..];
    }
  }

  lemma {:induction false} OddList(items: seq<Value>, i: nat, held: seq<Text>)
    requires i < |items| && !items[i].Str? && !items[i].Null?
    ensures StringsOf(items, held) == None
  {
    if i > 0 {
      OddList(items[1..], i - 1, if held == [] then [] else held[1..]);
    }
  }

  /** The capabilities of a packet, wherever in it they stand. */
  lemma {:induction false} CapsWherever(members: seq<Member>, i: nat, caps: seq<Text>)
    requires OnlyAt(members, CAPABILITIES, i)
    ensures members[i].value.Arr? && Spells(members[i].value.items, caps) ==>
              CapsFrom(members, [], []) == Some(caps)
    ensures members[i].value.Null? ==> CapsFrom(members, [], []) == Some([])
    ensures !members[i].value.Arr? && !members[i].value.Null? ==> CapsFrom(members, [], []) == None
    ensures members[i].value.Arr? &&
            (exists k :: 0 <= k < |members[i].value.items| &&
               !members[i].value.items[k].Str? && !members[i].value.items[k].Null?) ==>
              CapsFrom(members, [], []) == None
  {
    OnlyLater(members, CAPABILITIES, i);
    if i == 0 {
      var v := members[0].value;
      if v.Null? {
        NoCaps(members[1..], [], []);
      } else if v.Arr? {
        if Spells(v.items, caps) {
          SpelledList(v.items, caps);
          NoCaps(members[1..], caps, Kept(caps, []));
        }
        if k :| 0 <= k < |v.items| && !v.items[k].Str? && !v.items[k].Null? {
          OddList(v.items, k, []);
        }
      }
    } else {
      CapsWherever(members[1..], i - 1, caps);
    }
  }

  /** A later list is read over an earlier one: null keeps what was there. */
  lemma {:induction false} ListOver(items: seq<Value>, held: seq<Text>)
    requires forall i :: 0 <= i < |items| ==> items[i].Str? || items[i].Null?
    ensures var caps := StringsOf(items, held);
            caps.Some? && |caps.value| == |items| &&
            forall i :: 0 <= i < |items| ==>
              caps.value[i] == if items[i].Str? then items[i].s else if i < |held| then held[i] else []
  {
    if items != [] {
      ListOver(items[1..], if held == [] then [] else held[1..]);
    }
  }

  /** And what was behind its end is still in memory, unless the list is empty. */
  lemma MemoryAfter(given: seq<Text>, held: seq<Text>)
    ensures given == [] ==> Kept(given, held) == []
    ensures given != [] ==>
              var kept := Kept(given, held);
              |kept| == (if |given| < |held| then |held| else |given|) &&
              forall i :: 0 <= i < |kept| ==> kept[i] == if i < |given| then given[i] else held[i]
  {
  }

  /** A packet that is only null: no type, no capabilities, and nothing to finish. */
  lemma NullPacket()
    ensures CapsOf(Ascii("null")) == Some([]) && FinishOf(Ascii("null")) == Some(false)
  {
    Words();
    assert Ascii("null")[4..] == [];
    assert ParseValue(Ascii("null")) == Ok(Null, []);
  }

  lemma {:induction false} NoFinish(members: seq<Member>, finish: bool)
    requires Without(members, FINISH_TASKS)
    ensures FinishFrom(members, finish) == Some(finish)
  {
    if members != [] {
      NoFinish(members[1..], finish);
    }
  }

  lemma {:induction false} FinishWherever(members: seq<Member>, i: nat, finish: bool)
    requires OnlyAt(members, FINISH_TASKS, i)
    ensures FinishFrom(members, finish) ==
            match members[i].value
            case Bool(b) => Some(b)
            case Null => Some(finish)
            case _ => None
  {
    OnlyLater(members, FINISH_TASKS, i);
    if i == 0 {
      if members[0].value.Bool? {
        NoFinish(members[1..], members[0].value.b);
      } else if members[0].value.Null? {
        NoFinish(members[1..], finish);
      }
    } else {
      FinishWherever(members[1..], i - 1, finish);
    }
  }

  /** What the runner asks for with a packet, as the termination handler reads it from its bytes:
      the value of `finish-tasks`, wherever it stands, false without it, and an error if it is
      something else. */
  lemma FinishExactly(members: seq<Member>)
    requires WellFormedMembers(members)
    ensures var clean, finish := CleanMembers(members), FinishOf(Encode(Obj(members)));
            && (forall i: nat :: OnlyAt(clean, FINISH_TASKS, i) ==>
                  finish == match clean[i].value
                            case Bool(b) => Some(b)
                            case Null => Some(false)
                            case _ => None)
            && (Without(clean, FINISH_TASKS) ==> finish == Some(false))
  {
    var clean := CleanMembers(members);
    UnmarshalBack(members);
    forall i: nat | OnlyAt(clean, FINISH_TASKS, i)
      ensures FinishFrom(clean, false) == match clean[i].value
                                          case Bool(b) => Some(b)
                                          case Null => Some(false)
                                          case _ => None
    {
      FinishWherever(clean, i, false);
    }
    if Without(clean, FINISH_TASKS) {
      NoFinish(clean, false);
    }
  }
}
