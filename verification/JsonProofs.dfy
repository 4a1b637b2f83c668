/** Encoded values are prefix-free and free of control characters, so that a line holds
    either the whole of a packet or nothing that can be taken for it. */
module JsonProofs {
  import opened Bytes
  import opened Json

  // ------------------------------------- a text that was read stays read when more follows

  lemma {:induction false} StringHasQuote(s: seq<byte>)
    requires ParseString(s).Ok?
    ensures QUOTE in s
    decreases |s|
  {
    if s[0] != QUOTE {
      StringHasQuote(s[OneUnit(s).used..]);
    }
  }

  lemma RuneLenStable(s: seq<byte>, t: seq<byte>)
    requires QUOTE in s
    ensures RuneLen(s + t) == RuneLen(s)
  {
    var u := s + t;
    assert forall i :: 0 <= i < |s| ==> u[i] == s[i];
    var q :| 0 <= q < |s| && s[q] == QUOTE;
  }

  lemma EscapeStable(s: seq<byte>, t: seq<byte>)
    requires QUOTE in s || |s| >= 6
    ensures IsUnicodeEscape(s + t) == IsUnicodeEscape(s)
    ensures IsUnicodeEscape(s) ==> Hex4((s + t)[2..]) == Hex4(s[2..])
  {
    var u := s + t;
    assert forall i :: 0 <= i < |s| ==> u[i] == s[i];
    if |s| >= 6 {
      assert forall i :: 0 <= i < 4 ==> u[2..][i] == s[2..][i];
    } else {
      var q :| 0 <= q < |s| && s[q] == QUOTE;
      assert q >= 2 ==> u[2..][q - 2] == QUOTE;
      assert !IsHex(QUOTE);
    }
  }

  lemma EscapedUnitExtends(s: seq<byte>, t: seq<byte>)
    requires |s| >= 2 && s[0] == BACKSLASH && EscapedUnit(s).Unit?
    requires s[1] == LOWER_U ==> QUOTE in s[6..]
    ensures EscapedUnit(s + t) == EscapedUnit(s)
  {
    assert (s + t)[0] == s[0] && (s + t)[1] == s[1];
    if s[1] == LOWER_U {
      EscapeStable(s, t);
      assert (s + t)[6..] == s[6..] + t;
      EscapeStable(s[6..], t);
      if |s| >= 8 {
        assert (s + t)[8..] == (s[6..] + t)[2..] && s[8..] == s[6..][2..];
      }
    }
  }

  lemma QuoteLater(s: seq<byte>, j: nat, k: nat)
    requires j <= k <= |s| && QUOTE in s[k..]
    ensures QUOTE in s[j..]
  {
    var q :| 0 <= q < |s[k..]| && s[k..][q] == QUOTE;
    assert s[j..][k + q - j] == QUOTE;
  }

  lemma UnitExtends(s: seq<byte>, t: seq<byte>)
    requires OneUnit(s).Unit? && QUOTE in s[OneUnit(s).used..]
    ensures OneUnit(s + t) == OneUnit(s)
  {
    var k := OneUnit(s).used;
    assert (s + t)[0] == s[0];
    if s[0] == BACKSLASH {
      if s[1] == LOWER_U {
        QuoteLater(s, 6, k);
      }
      EscapedUnitExtends(s, t);
    } else {
      QuoteLater(s, 0, k);
      assert s[0..] == s;
      RuneLenStable(s, t);
      assert (s + t)[..k] == s[..k];
    }
  }

  lemma StringStep(s: seq<byte>, u: Unit, tail: seq<byte>, more: seq<byte>, rest: seq<byte>)
    requires s != [] && s[0] != QUOTE && OneUnit(s) == u && u.Unit? && s[u.used..] == tail
    requires ParseString(tail) == Ok(more, rest)
    ensures ParseString(s) == Ok(u.bytes + more, rest)
  {
  }

  lemma EmptyExtends(s: seq<byte>, t: seq<byte>)
    requires s != [] && s[0] == QUOTE
    ensures ParseString(s) == Ok([], s[1..]) && ParseString(s + t) == Ok([], s[1..] + t)
  {
    assert (s + t)[0] == s[0] && (s + t)[1..] == s[1..] + t;
  }

  /** A string that begins with the unit `u`, if what follows the unit may be extended. */
  lemma UnitStep(s: seq<byte>, t: seq<byte>, u: Unit, tail: seq<byte>, more: seq<byte>, rest: seq<byte>)
    requires s != [] && s[0] != QUOTE && OneUnit(s) == u && u.Unit? && s[u.used..] == tail
    requires OneUnit(s + t) == u
    requires ParseString(tail) == Ok(more, rest) && ParseString(tail + t) == Ok(more, rest + t)
    ensures ParseString(s) == Ok(u.bytes + more, rest)
    ensures ParseString(s + t) == Ok(u.bytes + more, rest + t)
  {
    StringStep(s, u, tail, more, rest);
    assert (s + t)[0] == s[0] && (s + t)[u.used..] == tail + t;
    StringStep(s + t, u, tail + t, more, rest + t);
  }

  lemma {:induction false} StringExtends(s: seq<byte>, t: seq<byte>)
    requires ParseString(s).Ok?
    ensures ParseString(s + t) == Ok(ParseString(s).value, ParseString(s).rest + t)
    decreases |s|
  {
    if s[0] == QUOTE {
      EmptyExtends(s, t);
    } else {
      var u := OneUnit(s);
      var tail := s[u.used..];
      var inner := ParseString(tail);
      StringHasQuote(tail);
      UnitExtends(s, t);
      StringExtends(tail, t);
      UnitStep(s, t, u, tail, inner.value, inner.rest);
    }
  }

  lemma {:induction false} SkipWsExtends(s: seq<byte>, t: seq<byte>)
    requires SkipWs(s) != []
    ensures SkipWs(s + t) == SkipWs(s) + t
  {
    if IsWs(s[0]) {
      assert (s + t)[1..] == s[1..] + t;
      SkipWsExtends(s[1..], t);
    }
  }

  lemma {:induction false} NumLenExtends(s: seq<byte>, t: seq<byte>)
    requires NumLen(s) < |s|
    ensures NumLen(s + t) == NumLen(s)
  {
    if NumChar(s[0]) {
      assert (s + t)[1..] == s[1..] + t;
      NumLenExtends(s[1..], t);
    }
  }

  predicate Complete(r: Parsed<Value>) {
    r.Ok? && (r.value.Num? ==> r.rest != [])
  }

  predicate IsWord(s: seq<byte>) { NULL <= s || TRUE <= s || FALSE <= s }

  lemma WordExtends(s: seq<byte>, t: seq<byte>)
    requires IsWord(s)
    ensures ParseValue(s + t) == Ok(ParseValue(s).value, ParseValue(s).rest + t)
  {
    var u := s + t;
    assert u[0] == s[0] && SkipWs(u) == u && SkipWs(s) == s;
    if FALSE <= s {
      assert u[..5] == s[..5] && u[5..] == s[5..] + t;
    } else {
      assert u[..4] == s[..4] && u[4..] == s[4..] + t;
    }
  }

  lemma NumberExtends(s: seq<byte>, t: seq<byte>)
    requires SkipWs(s) == s && s != [] && NumLen(s) < |s| && IsNumber(s[..NumLen(s)])
    ensures ParseValue(s) == Ok(Num(s[..NumLen(s)]), s[NumLen(s)..])
    ensures ParseValue(s + t) == Ok(Num(s[..NumLen(s)]), s[NumLen(s)..] + t)
  {
    var u := s + t;
    var n := NumLen(s);
    NumLenExtends(s, t);
    assert u[..n] == s[..n] && u[n..] == s[n..] + t;
    assert s[..n][0] == s[0] && u[0] == s[0];
    assert SkipWs(u) == u;
  }

  /** Neither a bracket nor a quote: a literal or a number. */
  lemma ScalarExtends(s: seq<byte>, t: seq<byte>)
    requires Complete(ParseValue(s)) && SkipWs(s) == s
    requires s[0] != LBRACE && s[0] != LBRACKET && s[0] != QUOTE
    ensures ParseValue(s + t) == Ok(ParseValue(s).value, ParseValue(s).rest + t)
  {
    if IsWord(s) {
      WordExtends(s, t);
    } else {
      NumberExtends(s, t);
    }
  }

  lemma {:induction false} ValueExtends(s: seq<byte>, t: seq<byte>)
    requires Complete(ParseValue(s))
    ensures ParseValue(s + t) == Ok(ParseValue(s).value, ParseValue(s).rest + t)
    decreases |s|, 0
  {
    var u := SkipWs(s);
    SkipWsExtends(s, t);
    assert (u + t)[1..] == u[1..] + t && (u + t)[0] == u[0];
    if u[0] == LBRACE {
      ObjectExtends(u[1..], t);
    } else if u[0] == LBRACKET {
      ArrayExtends(u[1..], t);
    } else if u[0] == QUOTE {
      StringExtends(u[1..], t);
    } else {
      SkipWsTwice(s);
      SkipWsTwice(s + t);
      ScalarExtends(u, t);
    }
  }

  /** Leading white space makes no difference. */
  lemma SkipWsTwice(s: seq<byte>)
    ensures SkipWs(SkipWs(s)) == SkipWs(s) && ParseValue(SkipWs(s)) == ParseValue(s)
  {
  }

  lemma ExpectExtends(s: seq<byte>, c: byte, t: seq<byte>)
    requires Expect(s, c).Ok?
    ensures Expect(s + t, c) == Ok((), Expect(s, c).rest + t)
  {
    var u := SkipWs(s);
    SkipWsExtends(s, t);
    assert (u + t)[0] == u[0] && (u + t)[1..] == u[1..] + t;
  }

  lemma ExpectStillBad(s: seq<byte>, c: byte, t: seq<byte>)
    requires Expect(s, c).Bad? && SkipWs(s) != []
    ensures Expect(s + t, c).Bad?
  {
    SkipWsExtends(s, t);
    assert (SkipWs(s) + t)[0] == SkipWs(s)[0];
  }

  lemma SeparatorExtends(s: seq<byte>, close: byte, t: seq<byte>)
    requires Separator(s, close).Ok?
    ensures Separator(s + t, close) == Ok(Separator(s, close).value, Separator(s, close).rest + t)
  {
    var u := SkipWs(s);
    SkipWsExtends(s, t);
    assert (u + t)[0] == u[0] && (u + t)[1..] == u[1..] + t;
  }

  lemma {:induction false} ObjectExtends(s: seq<byte>, t: seq<byte>)
    requires ParseObject(s).Ok?
    ensures ParseObject(s + t) == Ok(ParseObject(s).value, ParseObject(s).rest + t)
    decreases |s|, 2
  {
    if Expect(s, RBRACE).Ok? {
      ExpectExtends(s, RBRACE, t);
    } else {
      MembersExtends(s, t);
      ExpectStillBad(s, RBRACE, t);
    }
  }

  lemma KeyExtends(s: seq<byte>, t: seq<byte>)
    requires ParseKey(s).Ok?
    ensures ParseKey(s + t) == Ok(ParseKey(s).value, ParseKey(s).rest + t)
    ensures SkipWs(s) != []
  {
    ExpectExtends(s, QUOTE, t);
    var text := Expect(s, QUOTE).rest;
    StringExtends(text, t);
    ExpectExtends(ParseString(text).rest, COLON, t);
  }

  lemma {:induction false} MembersExtends(s: seq<byte>, t: seq<byte>)
    requires ParseMembers(s).Ok?
    ensures ParseMembers(s + t) == Ok(ParseMembers(s).value, ParseMembers(s).rest + t)
    ensures SkipWs(s) != []
    decreases |s|, 1
  {
    KeyExtends(s, t);
    var afterKey := ParseKey(s).rest;
    ValueExtends(afterKey, t);
    var afterValue := ParseValue(afterKey).rest;
    SeparatorExtends(afterValue, RBRACE, t);
    if !Separator(afterValue, RBRACE).value {
      MembersExtends(Separator(afterValue, RBRACE).rest, t);
    }
  }

  lemma {:induction false} ArrayExtends(s: seq<byte>, t: seq<byte>)
    requires ParseArray(s).Ok?
    ensures ParseArray(s + t) == Ok(ParseArray(s).value, ParseArray(s).rest + t)
    decreases |s|, 2
  {
    if Expect(s, RBRACKET).Ok? {
      ExpectExtends(s, RBRACKET, t);
    } else {
      ItemsExtend(s, t);
      ExpectStillBad(s, RBRACKET, t);
    }
  }

  lemma {:induction false} ItemsExtend(s: seq<byte>, t: seq<byte>)
    requires ParseItems(s).Ok?
    ensures ParseItems(s + t) == Ok(ParseItems(s).value, ParseItems(s).rest + t)
    ensures SkipWs(s) != []
    decreases |s|, 1
  {
    ValueExtends(s, t);
    var afterValue := ParseValue(s).rest;
    SeparatorExtends(afterValue, RBRACKET, t);
    if !Separator(afterValue, RBRACKET).value {
      ItemsExtend(Separator(afterValue, RBRACKET).rest, t);
    }
  }

  /** No proper prefix of an encoded object can be read as a value. */
  lemma PrefixIsBad(members: seq<Member>, k: nat)
    requires WellFormedMembers(members) && k < |Encode(Obj(members))|
    ensures ParseValue(Encode(Obj(members))[..k]).Bad?
  {
    var whole := Encode(Obj(members));
    var s, t := whole[..k], whole[k..];
    if ParseValue(s).Ok? {
      assert whole == s + t && whole + [] == whole;
      ValueBack(Obj(members), []);
      assert s[0] == LBRACE;
      ValueExtends(s, t);
      assert false;
    }
  }

  // ------------------------------------------------------- no control characters

  predicate Printable(s: seq<byte>) { forall i :: 0 <= i < |s| ==> s[i] >= 32 }

  lemma {:induction false} StringPrints(s: seq<byte>)
    ensures Printable(EncodeString(s))
    decreases |s|
  {
    if s != [] {
      var c := UnitCode(s);
      if s[0] >= 0x80 && RuneLen(s) > 0 {
        assert forall i :: 0 < i < RuneLen(s) ==> s[i] >= 0x80;
      }
      assert Printable(c);
      StringPrints(s[UnitLen(s)..]);
    }
  }

  lemma {:induction false} NumberPrints(s: seq<byte>)
    requires NumLen(s) == |s|
    ensures Printable(s)
  {
    if s != [] {
      NumberPrints(s[1..]);
      assert s == [s[0]] + s[1..];
    }
  }

  lemma {:induction false} ValuePrints(v: Value)
    requires WellFormed(v)
    ensures Printable(Encode(v))
    decreases v, 1
  {
    match v
    case Num(raw) => NumberPrints(raw);
    case Str(s) => StringPrints(s);
    case Arr(items) => ItemsPrint(items);
    case Obj(members) => MembersPrint(members);
    case _ =>
  }

  lemma {:induction false} ItemsPrint(items: seq<Value>)
    requires WellFormedItems(items)
    ensures Printable(EncodeItems(items))
    decreases items, 0
  {
    if items != [] {
      ValuePrints(items[0]);
      if |items| > 1 {
        ItemsPrint(items[1..]);
      }
    }
  }

  lemma {:induction false} MemberPrints(m: Member)
    requires WellFormed(m.value)
    ensures Printable(EncodeMember(m))
    decreases m, 0
  {
    StringPrints(m.key);
    ValuePrints(m.value);
  }

  lemma {:induction false} MembersPrint(members: seq<Member>)
    requires WellFormedMembers(members)
    ensures Printable(EncodeMembers(members))
    ensures EncodeMembers(members) != [] && EncodeMembers(members)[|EncodeMembers(members)| - 1] == RBRACE
    decreases members, 0
  {
    if members != [] {
      MemberPrints(members[0]);
      if |members| > 1 {
        MembersPrint(members[1..]);
      }
    }
  }
}
