/** What the JSON reader makes of texts that the writer does not produce: white space, other
    escapes, numbers in all forms, and the code points of UTF-8 (RFC 8259, sections 2, 6, 7 and 8). */
module JsonLaws {
  import opened Bytes
  import opened Json

  // ---------------------------------------------------------------- code points

  predicate Scalar(u: nat) { u < 0x11_0000 && !High(u) && !Low(u) }

  /** Every code point is read with the length that it is written with. */
  lemma RuneBack(u: nat, t: seq<byte>)
    requires Scalar(u)
    ensures RuneLen(EncodeRune(u) + t) == |EncodeRune(u)|
  {
    var s := EncodeRune(u) + t;
    if u >= 0x80 {
      assert s[0] == EncodeRune(u)[0] && s[1] == EncodeRune(u)[1];
      if u >= 0x800 {
        assert s[2] == EncodeRune(u)[2];
        if u >= 0x1_0000 {
          assert s[3] == EncodeRune(u)[3];
        }
      }
    }
  }

  /** And nothing else is read as a code point. */
  lemma RuneIsEncoded(s: seq<byte>) returns (u: nat)
    requires RuneLen(s) > 0
    ensures Scalar(u) && EncodeRune(u) == s[..RuneLen(s)]
  {
    var n := RuneLen(s);
    if n == 1 {
      u := s[0];
    } else if n == 2 {
      u := TwoByteRune(s);
    } else if n == 3 {
      u := ThreeByteRune(s);
    } else {
      u := FourByteRune(s);
    }
  }

  lemma TwoByteRune(s: seq<byte>) returns (u: nat)
    requires RuneLen(s) == 2
    ensures Scalar(u) && EncodeRune(u) == s[..2]
  {
    var b0: int, b1: int := s[0] - 0xC0, s[1] - 0x80;
    FourBytes(0, 0, b0, b1);
    u := b0 * 64 + b1;
  }

  lemma ThreeByteRune(s: seq<byte>) returns (u: nat)
    requires RuneLen(s) == 3
    ensures Scalar(u) && EncodeRune(u) == s[..3]
  {
    var b0: int, b1: int, b2: int := s[0] - 0xE0, s[1] - 0x80, s[2] - 0x80;
    FourBytes(0, b0, b1, b2);
    u := (b0 * 64 + b1) * 64 + b2;
  }

  lemma FourByteRune(s: seq<byte>) returns (u: nat)
    requires RuneLen(s) == 4
    ensures Scalar(u) && EncodeRune(u) == s[..4]
  {
    var b0: int, b1: int := s[0] - 0xF0, s[1] - 0x80;
    var b2: int, b3: int := s[2] - 0x80, s[3] - 0x80;
    FourBytes(b0, b1, b2, b3);
    u := ((b0 * 64 + b1) * 64 + b2) * 64 + b3;
  }

  lemma FourBytes(a: int, b: int, c: int, d: int)
    requires 0 <= a < 8 && 0 <= b < 64 && 0 <= c < 64 && 0 <= d < 64
    ensures var u := ((a * 64 + b) * 64 + c) * 64 + d;
            u / 262144 == a && u / 4096 % 64 == b && u / 64 % 64 == c && u % 64 == d
    ensures var u := ((a * 64 + b) * 64 + c) * 64 + d; u / 4096 == a * 64 + b && u / 64 == (a * 64 + b) * 64 + c
  {
    var x := a * 64 + b;
    var y := x * 64 + c;
    var u := y * 64 + d;
    assert u / 64 == y && u % 64 == d;
    assert y / 64 == x && y % 64 == c;
    assert u / 4096 == x;
    assert x / 64 == a && x % 64 == b;
  }

  /** Some of them, as they are: a letter, the cent sign, the euro sign, and one of four bytes. */
  lemma SomeRunes()
    ensures EncodeRune(0x41) == [0x41] && EncodeRune(0xA2) == [0xC2, 0xA2]
    ensures EncodeRune(0x20AC) == [0xE2, 0x82, 0xAC] && EncodeRune(0x10348) == [0xF0, 0x90, 0x8D, 0x88]
  {
  }

  // -------------------------------------------------------------------- escapes

  lemma PairUnit(high: nat, low: nat, s: seq<byte>)
    requires High(high) && Low(low) && IsUnicodeEscape(s) && Hex4(s[2..]) == high
    requires |s| >= 12 && IsUnicodeEscape(s[6..]) && Hex4(s[8..]) == low
    ensures OneUnit(s) == Unit(EncodeRune(0x1_0000 + (high - 0xD800) * 1024 + (low - 0xDC00)), 12)
  {
  }

  /** Two escapes of a pair of surrogates stand for one code point, a lone one for none. */
  lemma SurrogatePair(u: nat, t: seq<byte>)
    requires 0x1_0000 <= u < 0x11_0000
    ensures var v := u - 0x1_0000;
            OneUnit(HexEscape(0xD800 + v / 1024) + HexEscape(0xDC00 + v % 1024) + t) == Unit(EncodeRune(u), 12)
  {
    var v := u - 0x1_0000;
    var high, low := 0xD800 + v / 1024, 0xDC00 + v % 1024;
    var s := HexEscape(high) + HexEscape(low) + t;
    HexEscapeBack(high, s);
    assert s[6..][..6] == HexEscape(low);
    HexEscapeBack(low, s[6..]);
    assert s[6..][2..] == s[8..];
    PairUnit(high, low, s);
  }

  lemma LoneSurrogate(u: nat, t: seq<byte>)
    requires 0xD800 <= u < 0xE000 && (u < 0xDC00 ==> !(t != [] && t[0] == BACKSLASH))
    ensures OneUnit(HexEscape(u) + t) == Unit([0xEF, 0xBF, 0xBD], 6)
  {
    var s := HexEscape(u) + t;
    HexEscapeBack(u, s);
    assert s[6..] == t;
  }

  /** The letters of the short escapes, and hexadecimal digits of either case. */
  lemma SomeEscapes()
    ensures SimpleEscape(34) == [34] && SimpleEscape(92) == [92] && SimpleEscape(47) == [47]
    ensures SimpleEscape(98) == [8] && SimpleEscape(102) == [12] && SimpleEscape(110) == [10]
    ensures SimpleEscape(114) == [13] && SimpleEscape(116) == [9] && SimpleEscape(97) == []
    ensures HexVal(48) == 0 && HexVal(57) == 9 && HexVal(65) == 10 && HexVal(70) == 15
    ensures HexVal(97) == 10 && HexVal(102) == 15 && !IsHex(71) && !IsHex(103) && !IsHex(47) && !IsHex(58)
  {
  }

  // ---------------------------------------------------------------- white space

  predicate Blank(w: seq<byte>) { forall i :: 0 <= i < |w| ==> w[i] in {32, 9, 10, 13} }

  lemma {:induction false} BlankIsSkipped(w: seq<byte>, s: seq<byte>)
    requires Blank(w)
    ensures SkipWs(w + s) == SkipWs(s)
  {
    if w == [] {
      assert w + s == s;
    } else {
      assert (w + s)[1..] == w[1..] + s;
      BlankIsSkipped(w[1..], s);
    }
  }

  /** White space before any token is of no account, whatever is to be read there. */
  lemma BlankBeforeToken(w: seq<byte>, s: seq<byte>, c: byte)
    requires Blank(w)
    ensures ParseValue(w + s) == ParseValue(s)
    ensures Expect(w + s, c) == Expect(s, c) && Separator(w + s, c) == Separator(s, c)
    ensures ParseKey(w + s) == ParseKey(s)
  {
    BlankIsSkipped(w, s);
  }

  lemma BlankBeforeMembers(w: seq<byte>, s: seq<byte>)
    requires Blank(w)
    ensures ParseMembers(w + s) == ParseMembers(s) && ParseObject(w + s) == ParseObject(s)
  {
    BlankBeforeToken(w, s, RBRACE);
  }

  lemma BlankBeforeItems(w: seq<byte>, s: seq<byte>)
    requires Blank(w)
    ensures ParseItems(w + s) == ParseItems(s) && ParseArray(w + s) == ParseArray(s)
  {
    BlankBeforeToken(w, s, RBRACKET);
  }

  // -------------------------------------------------------------------- numbers

  predicate Digits(d: seq<byte>) { d != [] && forall i :: 0 <= i < |d| ==> 48 <= d[i] <= 57 }

  predicate SignPart(s: seq<byte>) { s == [] || s == [45] }

  predicate IntPart(s: seq<byte>) { Digits(s) && (s[0] == 48 ==> |s| == 1) }

  predicate FracPart(s: seq<byte>) { s == [] || (s[0] == 46 && Digits(s[1..])) }

  predicate ExpPart(s: seq<byte>) {
    s == [] || (s[0] in {69, 101} && (Digits(s[1..]) || (|s| > 1 && s[1] in {43, 45} && Digits(s[2..]))))
  }

  ghost predicate NumberText(s: seq<byte>) {
    exists sign, whole, frac, exp :: NumberParts(s, sign, whole, frac, exp)
  }

  predicate NumberParts(s: seq<byte>, sign: seq<byte>, whole: seq<byte>, frac: seq<byte>, exp: seq<byte>) {
    s == sign + (whole + (frac + exp)) && SignPart(sign) && IntPart(whole) && FracPart(frac) && ExpPart(exp)
  }

  lemma {:induction false} DigitsLenOf(d: seq<byte>, t: seq<byte>)
    requires (d == [] || Digits(d)) && (t == [] || !IsDigit(t[0]))
    ensures DigitsLen(d + t) == |d|
  {
    if d == [] {
      assert d + t == t;
    } else {
      assert (d + t)[1..] == d[1..] + t;
      DigitsLenOf(d[1..], t);
    }
  }

  lemma {:induction false} DigitsLenIs(s: seq<byte>)
    ensures forall i :: 0 <= i < DigitsLen(s) ==> IsDigit(s[i])
    ensures DigitsLen(s) < |s| ==> !IsDigit(s[DigitsLen(s)])
  {
    if s != [] && IsDigit(s[0]) {
      DigitsLenIs(s[1..]);
      assert forall i :: 0 < i < DigitsLen(s) ==> s[i] == s[1..][i - 1];
    }
  }

  lemma ExpExactly(s: seq<byte>)
    ensures IsExp(s) <==> ExpPart(s)
  {
    if s != [] {
      DigitsLenAll(s[1..]);
      if |s| > 1 {
        DigitsLenAll(s[2..]);
      }
    }
  }

  lemma DigitsLenAll(s: seq<byte>)
    ensures s != [] && DigitsLen(s) == |s| <==> Digits(s)
  {
    DigitsLenIs(s);
    if Digits(s) {
      DigitsLenOf(s, []);
      assert s + [] == s;
    }
  }

  lemma FractionParts(s: seq<byte>) returns (frac: seq<byte>, exp: seq<byte>)
    requires IsFraction(s)
    ensures s == frac + exp && FracPart(frac) && ExpPart(exp)
  {
    var n := if s != [] && s[0] == 46 then 1 + DigitsLen(s[1..]) else 0;
    frac, exp := s[..n], s[n..];
    if n > 0 {
      DigitsLenIs(s[1..]);
      assert frac[1..] == s[1..][..n - 1];
    }
    ExpExactly(exp);
  }

  lemma FractionOf(frac: seq<byte>, exp: seq<byte>)
    requires FracPart(frac) && ExpPart(exp)
    ensures IsFraction(frac + exp) && (frac + exp == [] || !IsDigit((frac + exp)[0]))
  {
    ExpExactly(exp);
    var s := frac + exp;
    if frac != [] {
      assert s[1..] == frac[1..] + exp;
      DigitsLenOf(frac[1..], exp);
      assert s[1 + |frac[1..]|..] == exp;
    } else {
      assert s == exp;
    }
  }

  lemma WholePart(t: seq<byte>) returns (whole: seq<byte>, tail: seq<byte>)
    requires DigitsLen(t) > 0 && (t[0] == 48 ==> DigitsLen(t) == 1)
    ensures t == whole + tail && IntPart(whole) && tail == t[DigitsLen(t)..]
  {
    var n := DigitsLen(t);
    DigitsLenIs(t);
    whole, tail := t[..n], t[n..];
    assert forall i :: 0 <= i < n ==> whole[i] == t[i];
  }

  lemma NumberIs(s: seq<byte>) returns (sign: seq<byte>, whole: seq<byte>, frac: seq<byte>, exp: seq<byte>)
    requires IsNumber(s)
    ensures NumberParts(s, sign, whole, frac, exp)
  {
    var k := if s != [] && s[0] == 45 then 1 else 0;
    sign := s[..k];
    var tail;
    whole, tail := WholePart(s[k..]);
    frac, exp := FractionParts(tail);
    assert s == sign + s[k..];
  }

  /** The numbers that are read are those of the grammar. */
  lemma NumberExactly(s: seq<byte>)
    ensures IsNumber(s) <==> NumberText(s)
  {
    if IsNumber(s) {
      var sign, whole, frac, exp := NumberIs(s);
      assert NumberParts(s, sign, whole, frac, exp);
    }
    if sign, whole, frac, exp :| NumberParts(s, sign, whole, frac, exp) {
      NumberOf(sign, whole, frac, exp);
    }
  }

  lemma NumberOf(sign: seq<byte>, whole: seq<byte>, frac: seq<byte>, exp: seq<byte>)
    requires SignPart(sign) && IntPart(whole) && FracPart(frac) && ExpPart(exp)
    ensures IsNumber(sign + (whole + (frac + exp)))
  {
    var tail := frac + exp;
    var t := whole + tail;
    var s := sign + t;
    FractionOf(frac, exp);
    DigitsLenOf(whole, tail);
    assert t[|whole|..] == tail;
    assert t[0] == whole[0];
    assert s[|sign|..] == t;
    assert sign == [] ==> s == t;
  }

  lemma {:induction false} NumLenAll(s: seq<byte>, t: seq<byte>)
    requires forall i :: 0 <= i < |s| ==> NumChar(s[i])
    requires t == [] || !NumChar(t[0])
    ensures NumLen(s + t) == |s|
  {
    if s == [] {
      assert s + t == t;
    } else {
      assert (s + t)[1..] == s[1..] + t;
      NumLenAll(s[1..], t);
    }
  }

  lemma NumberChars(s: seq<byte>, sign: seq<byte>, whole: seq<byte>, frac: seq<byte>, exp: seq<byte>)
    requires NumberParts(s, sign, whole, frac, exp)
    ensures forall i :: 0 <= i < |s| ==> NumChar(s[i])
  {
    forall i | 0 <= i < |frac| ensures NumChar(frac[i]) {
      assert i > 0 ==> frac[i] == frac[1..][i - 1];
    }
    ExpChars(exp);
  }

  lemma ExpChars(exp: seq<byte>)
    requires ExpPart(exp)
    ensures forall i :: 0 <= i < |exp| ==> NumChar(exp[i])
  {
    forall i | 0 <= i < |exp| ensures NumChar(exp[i]) {
      if i > 0 && Digits(exp[1..]) {
        assert exp[i] == exp[1..][i - 1];
      } else if i > 1 {
        assert exp[i] == exp[2..][i - 2];
      }
    }
  }

  /** Every number of the grammar is read as a whole, up to a comma, a bracket or white space. */
  lemma NumberIsRead(s: seq<byte>, rest: seq<byte>)
    requires NumberText(s) && (rest == [] || rest[0] in {44, 93, 125, 32, 9, 10, 13})
    ensures ParseValue(s + rest) == Ok(Num(s), rest)
  {
    var sign, whole, frac, exp :| NumberParts(s, sign, whole, frac, exp);
    NumberChars(s, sign, whole, frac, exp);
    NumberExactly(s);
    NumLenAll(s, rest);
    FirstOfNumber(s, sign, whole, frac, exp);
    ReadNumber(s, rest);
  }

  lemma FirstOfNumber(s: seq<byte>, sign: seq<byte>, whole: seq<byte>, frac: seq<byte>, exp: seq<byte>)
    requires NumberParts(s, sign, whole, frac, exp)
    ensures s != [] && (s[0] == 45 || IsDigit(s[0]))
  {
    assert sign == [] ==> s[0] == whole[0];
  }

  lemma ReadNumber(s: seq<byte>, rest: seq<byte>)
    requires s != [] && (s[0] == 45 || IsDigit(s[0])) && IsNumber(s) && NumLen(s + rest) == |s|
    ensures ParseValue(s + rest) == Ok(Num(s), rest)
  {
    var t := s + rest;
    assert t[0] == s[0] && SkipWs(t) == t;
    assert t[..|s|] == s && t[|s|..] == rest;
  }
}
