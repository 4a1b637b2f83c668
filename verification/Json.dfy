/** JSON texts as the packets use them: sections 4 to 7 of RFC 8259, on bytes, with the
    encoder and the decoder of the source's standard library. */
module Json {
  import opened Bytes

  datatype Value =
    | Null
    | Bool(b: bool)
    | Num(raw: seq<byte>)
    | Str(s: seq<byte>)
    | Arr(items: seq<Value>)
    | Obj(members: seq<Member>)

  datatype Member = Member(key: seq<byte>, value: Value)

  datatype Parsed<T> = Ok(value: T, rest: seq<byte>) | Bad

  // -------------------------------------------------------------------- UTF-8

  predicate Cont(b: byte) { 0x80 <= b < 0xC0 }

  /** The length of the code point at the head of `s`; 0 when there is no valid one. */
  function RuneLen(s: seq<byte>): (n: nat)
    ensures n <= |s| && n <= 4
  {
    if s == [] then 0
    else if s[0] < 0x80 then 1
    else if |s| < 2 || !Cont(s[1]) then 0
    else if 0xC2 <= s[0] < 0xE0 then 2
    else if |s| < 3 || !Cont(s[2]) then 0
    else if 0xE0 <= s[0] < 0xF0 then
      if (s[0] == 0xE0 && s[1] < 0xA0) || (s[0] == 0xED && s[1] >= 0xA0) then 0 else 3
    else if |s| < 4 || !Cont(s[3]) then 0
    else if 0xF0 <= s[0] <= 0xF4 then
      if (s[0] == 0xF0 && s[1] < 0x90) || (s[0] == 0xF4 && s[1] >= 0x90) then 0 else 4
    else 0
  }

  /** The code point depends on its own bytes only. */
  lemma RuneLenLocal(s: seq<byte>, t: seq<byte>)
    requires RuneLen(s) > 0
    ensures RuneLen(s[..RuneLen(s)] + t) == RuneLen(s)
  {
    var n := RuneLen(s);
    var u := s[..n] + t;
    assert forall i :: 0 <= i < n ==> u[i] == s[i];
  }

  const REPLACEMENT: seq<byte> := [0xEF, 0xBF, 0xBD]

  /** What is left of a string once invalid bytes are replaced. */
  function Clean(s: seq<byte>): seq<byte>
    decreases |s|
  {
    if s == [] then []
    else if RuneLen(s) == 0 then REPLACEMENT + Clean(s[1..])
    else s[..RuneLen(s)] + Clean(s[RuneLen(s)..])
  }

  predicate ValidText(s: seq<byte>)
    decreases |s|
  {
    s == [] || (RuneLen(s) > 0 && ValidText(s[RuneLen(s)..]))
  }

  lemma {:induction false} ValidIsClean(s: seq<byte>)
    requires ValidText(s)
    ensures Clean(s) == s
    decreases |s|
  {
    if s != [] {
      ValidIsClean(s[RuneLen(s)..]);
    }
  }

  /** The encoding of the code point `u`. */
  function EncodeRune(u: nat): seq<byte>
    requires u < 0x11_0000
  {
    if u < 0x80 then [u]
    else if u < 0x800 then [0xC0 + u / 64, 0x80 + u % 64]
    else if u < 0x1_0000 then [0xE0 + u / 4096, 0x80 + u / 64 % 64, 0x80 + u % 64]
    else [0xF0 + u / 262144, 0x80 + u / 4096 % 64, 0x80 + u / 64 % 64, 0x80 + u % 64]
  }

  // ------------------------------------------------------------------ strings

  const QUOTE: byte := 34
  const BACKSLASH: byte := 92
  const LOWER_U: byte := 117

  function HexDigit(n: nat): byte
    requires n < 16
  {
    if n < 10 then 48 + n else 87 + n
  }

  predicate IsHex(b: byte) { 48 <= b <= 57 || 97 <= b <= 102 || 65 <= b <= 70 }

  function HexVal(b: byte): nat
    requires IsHex(b)
  {
    if b <= 57 then b - 48 else if b >= 97 then b - 87 else b - 55
  }

  predicate IsHex4(s: seq<byte>) { |s| >= 4 && forall i :: 0 <= i < 4 ==> IsHex(s[i]) }

  function Hex4(s: seq<byte>): (u: nat)
    requires IsHex4(s)
    ensures u < 0x1_0000
  {
    HexVal(s[0]) * 4096 + HexVal(s[1]) * 256 + HexVal(s[2]) * 16 + HexVal(s[3])
  }

  function HexEscape(u: nat): seq<byte>
    requires u < 0x1_0000
  {
    [BACKSLASH, LOWER_U, HexDigit(u / 4096), HexDigit(u / 256 % 16), HexDigit(u / 16 % 16), HexDigit(u % 16)]
  }

  /** One character of a string literal: the bytes it stands for and its own length. */
  datatype Unit = Unit(bytes: seq<byte>, used: nat) | NoUnit

  /** The escapes of one letter. */
  function SimpleEscape(e: byte): seq<byte> {
    if e == QUOTE || e == BACKSLASH || e == 47 then [e]
    else if e == 98 then [8]
    else if e == 102 then [12]
    else if e == 110 then [10]
    else if e == 114 then [13]
    else if e == 116 then [9]
    else []
  }

  predicate IsUnicodeEscape(s: seq<byte>) {
    |s| >= 6 && s[0] == BACKSLASH && s[1] == LOWER_U && IsHex4(s[2..])
  }

  predicate High(u: nat) { 0xD800 <= u < 0xDC00 }

  predicate Low(u: nat) { 0xDC00 <= u < 0xE000 }

  function EscapedUnit(s: seq<byte>): (u: Unit)
    requires |s| > 0 && s[0] == BACKSLASH
    ensures u.Unit? ==> 0 < u.used <= |s|
  {
    if |s| < 2 then NoUnit
    else if s[1] == LOWER_U then
      if !IsUnicodeEscape(s) then NoUnit
      else
        var u := Hex4(s[2..]);
        if !High(u) && !Low(u) then Unit(EncodeRune(u), 6)
        else if High(u) && IsUnicodeEscape(s[6..]) && Low(Hex4(s[8..])) then
          Unit(EncodeRune(0x1_0000 + (u - 0xD800) * 1024 + (Hex4(s[8..]) - 0xDC00)), 12)
        else Unit(REPLACEMENT, 6)
    else if SimpleEscape(s[1]) == [] then NoUnit
    else Unit(SimpleEscape(s[1]), 2)
  }

  /** The character at the head of what follows an opening quote. */
  function OneUnit(s: seq<byte>): (u: Unit)
    ensures u.Unit? ==> 0 < u.used <= |s|
  {
    if s == [] || s[0] == QUOTE || s[0] < 32 then NoUnit
    else if s[0] == BACKSLASH then EscapedUnit(s)
    else if RuneLen(s) == 0 then Unit(REPLACEMENT, 1)
    else Unit(s[..RuneLen(s)], RuneLen(s))
  }

  /** The rest of a string literal, after its opening quote. */
  function ParseString(s: seq<byte>): (r: Parsed<seq<byte>>)
    ensures r.Ok? ==> |r.rest| < |s|
    decreases |s|
  {
    if s == [] then Bad
    else if s[0] == QUOTE then Ok([], s[1..])
    else
      var u := OneUnit(s);
      if u.NoUnit? then Bad
      else
        match ParseString(s[u.used..])
        case Bad => Bad
        case Ok(more, rest) => Ok(u.bytes + more, rest)
  }

  predicate LineSeparator(s: seq<byte>) {
    |s| >= 3 && s[0] == 0xE2 && s[1] == 0x80 && (s[2] == 0xA8 || s[2] == 0xA9)
  }

  function SeparatorRune(s: seq<byte>): nat
    requires LineSeparator(s)
  {
    if s[2] == 0xA8 then 0x2028 else 0x2029
  }

  /** How the encoder writes the character at the head of `s`. */
  function UnitCode(s: seq<byte>): seq<byte>
    requires s != []
  {
    var c := s[0];
    if c == QUOTE || c == BACKSLASH then [BACKSLASH, c]
    else if c == 10 then [BACKSLASH, 110]
    else if c == 13 then [BACKSLASH, 114]
    else if c == 9 then [BACKSLASH, 116]
    else if c < 32 || c == 60 || c == 62 || c == 38 then HexEscape(c)
    else if RuneLen(s) == 0 then HexEscape(0xFFFD)
    else if LineSeparator(s) then HexEscape(SeparatorRune(s))
    else s[..RuneLen(s)]
  }

  function UnitLen(s: seq<byte>): (n: nat)
    requires s != []
    ensures 0 < n <= |s|
  {
    if RuneLen(s) == 0 then 1 else RuneLen(s)
  }

  /** A string literal without its opening quote. */
  function EncodeString(s: seq<byte>): seq<byte>
    decreases |s|
  {
    if s == [] then [QUOTE] else UnitCode(s) + EncodeString(s[UnitLen(s)..])
  }

  lemma HexDigitBack(n: nat)
    requires n < 16
    ensures IsHex(HexDigit(n)) && HexVal(HexDigit(n)) == n
  {
  }

  lemma HexEscapeBack(u: nat, s: seq<byte>)
    requires u < 0x1_0000 && |s| >= 6 && s[..6] == HexEscape(u)
    ensures IsUnicodeEscape(s) && Hex4(s[2..]) == u
  {
    var a, b := u / 16, u / 256;
    assert u == a * 16 + u % 16 && a == b * 16 + a % 16 && b / 16 == u / 4096;
    assert b == b / 16 * 16 + b % 16;
    HexDigitBack(u / 4096);
    HexDigitBack(b % 16);
    HexDigitBack(a % 16);
    HexDigitBack(u % 16);
    var h := s[2..];
    assert forall i :: 0 <= i < 4 ==> h[i] == s[..6][i + 2];
  }

  lemma HexEscapeUnit(u: nat, t: seq<byte>)
    requires u < 0x1_0000 && !High(u) && !Low(u)
    ensures OneUnit(HexEscape(u) + t) == Unit(EncodeRune(u), 6)
  {
    HexEscapeBack(u, HexEscape(u) + t);
  }

  lemma ShortEscapeUnit(e: byte, t: seq<byte>)
    requires SimpleEscape(e) != []
    ensures OneUnit([BACKSLASH, e] + t) == Unit(SimpleEscape(e), 2)
  {
  }

  lemma RawUnit(s: seq<byte>, t: seq<byte>)
    requires RuneLen(s) > 0 && s[0] >= 32 && s[0] != QUOTE && s[0] != BACKSLASH
    ensures OneUnit(s[..RuneLen(s)] + t) == Unit(s[..RuneLen(s)], RuneLen(s))
  {
    RuneLenLocal(s, t);
    assert (s[..RuneLen(s)] + t)[..RuneLen(s)] == s[..RuneLen(s)];
  }

  lemma SeparatorBytes(s: seq<byte>)
    requires LineSeparator(s)
    ensures EncodeRune(SeparatorRune(s)) == s[..3]
  {
    var r := SeparatorRune(s);
    assert r / 4096 == 2 && r / 64 % 64 == 0 && r % 64 == if s[2] == 0xA8 then 40 else 41;
  }

  lemma SeparatorUnit(s: seq<byte>, t: seq<byte>)
    requires LineSeparator(s)
    ensures RuneLen(s) == 3
    ensures OneUnit(HexEscape(SeparatorRune(s)) + t) == Unit(s[..3], 6)
  {
    HexEscapeUnit(SeparatorRune(s), t);
    SeparatorBytes(s);
  }

  lemma AsciiUnit(s: seq<byte>, t: seq<byte>)
    requires s != [] && (s[0] < 32 || s[0] == QUOTE || s[0] == BACKSLASH || s[0] == 60 || s[0] == 62 || s[0] == 38)
    ensures RuneLen(s) == 1 && s[..1] == [s[0]]
    ensures OneUnit(UnitCode(s) + t) == Unit([s[0]], |UnitCode(s)|)
  {
    var c := s[0];
    if c == QUOTE || c == BACKSLASH {
      ShortEscapeUnit(c, t);
    } else if c == 10 || c == 13 || c == 9 {
      ShortEscapeUnit(if c == 10 then 110 else if c == 13 then 114 else 116, t);
    } else {
      HexEscapeUnit(c, t);
    }
  }

  /** The decoder reads back each character that the encoder writes, whatever follows. */
  lemma UnitBack(s: seq<byte>, t: seq<byte>)
    requires s != []
    ensures var bytes := if RuneLen(s) == 0 then REPLACEMENT else s[..RuneLen(s)];
            OneUnit(UnitCode(s) + t) == Unit(bytes, |UnitCode(s)|)
  {
    var c := s[0];
    if c < 32 || c == QUOTE || c == BACKSLASH || c == 60 || c == 62 || c == 38 {
      AsciiUnit(s, t);
    } else if RuneLen(s) == 0 {
      HexEscapeUnit(0xFFFD, t);
    } else if LineSeparator(s) {
      SeparatorUnit(s, t);
    } else {
      RawUnit(s, t);
    }
  }

  lemma {:induction false} StringBack(s: seq<byte>, rest: seq<byte>)
    ensures ParseString(EncodeString(s) + rest) == Ok(Clean(s), rest)
    decreases |s|
  {
    if s != [] {
      var t := EncodeString(s[UnitLen(s)..]) + rest;
      assert EncodeString(s) + rest == UnitCode(s) + t;
      UnitBack(s, t);
      assert (UnitCode(s) + t)[|UnitCode(s)|..] == t;
      StringBack(s[UnitLen(s)..], rest);
    }
  }

  // ------------------------------------------------------------------- values

  const LBRACE: byte := 123
  const RBRACE: byte := 125
  const LBRACKET: byte := 91
  const RBRACKET: byte := 93
  const COMMA: byte := 44
  const COLON: byte := 58
  const NULL: seq<byte> := [110, 117, 108, 108]
  const TRUE: seq<byte> := [116, 114, 117, 101]
  const FALSE: seq<byte> := [102, 97, 108, 115, 101]

  predicate IsWs(b: byte) { b == 32 || b == 9 || b == 10 || b == 13 }

  function SkipWs(s: seq<byte>): (t: seq<byte>)
    ensures |t| <= |s|
    ensures t != [] ==> !IsWs(t[0])
  {
    if s != [] && IsWs(s[0]) then SkipWs(s[1..]) else s
  }

  predicate IsDigit(b: byte) { 48 <= b <= 57 }

  /** Digits, signs, the decimal point and the two letters e. */
  predicate NumChar(b: byte) { IsDigit(b) || b == 43 || b == 45 || b == 46 || b == 69 || b == 101 }

  function NumLen(s: seq<byte>): (n: nat)
    ensures n <= |s|
  {
    if s != [] && NumChar(s[0]) then 1 + NumLen(s[1..]) else 0
  }

  function DigitsLen(s: seq<byte>): (n: nat)
    ensures n <= |s|
  {
    if s != [] && IsDigit(s[0]) then 1 + DigitsLen(s[1..]) else 0
  }

  predicate IsExp(s: seq<byte>) {
    s == [] ||
    ((s[0] == 69 || s[0] == 101) &&
     var t := if |s| > 1 && (s[1] == 43 || s[1] == 45) then s[2..] else s[1..];
     t != [] && DigitsLen(t) == |t|)
  }

  predicate IsFraction(s: seq<byte>) {
    if s != [] && s[0] == 46 then
      var n := DigitsLen(s[1..]);
      n > 0 && IsExp(s[1 + n..])
    else IsExp(s)
  }

  /** Section 6 of RFC 8259. */
  predicate IsNumber(s: seq<byte>) {
    var t := if s != [] && s[0] == 45 then s[1..] else s;
    var n := DigitsLen(t);
    n > 0 && (t[0] == 48 ==> n == 1) && IsFraction(t[n..])
  }

  function ParseValue(s: seq<byte>): (r: Parsed<Value>)
    ensures r.Ok? ==> |r.rest| < |s|
    decreases |s|, 0
  {
    var t := SkipWs(s);
    if t == [] then Bad
    else if t[0] == LBRACE then
      match ParseObject(t[1..])
      case Bad => Bad
      case Ok(members, rest) => Ok(Obj(members), rest)
    else if t[0] == LBRACKET then
      match ParseArray(t[1..])
      case Bad => Bad
      case Ok(items, rest) => Ok(Arr(items), rest)
    else if t[0] == QUOTE then
      match ParseString(t[1..])
      case Bad => Bad
      case Ok(text, rest) => Ok(Str(text), rest)
    else if NULL <= t then Ok(Null, t[4..])
    else if TRUE <= t then Ok(Bool(true), t[4..])
    else if FALSE <= t then Ok(Bool(false), t[5..])
    else
      var n := NumLen(t);
      if IsNumber(t[..n]) then Ok(Num(t[..n]), t[n..]) else Bad
  }

  /** The byte `c`, after white space. */
  function Expect(s: seq<byte>, c: byte): (r: Parsed<()>)
    ensures r.Ok? ==> |r.rest| < |s|
  {
    var t := SkipWs(s);
    if t != [] && t[0] == c then Ok((), t[1..]) else Bad
  }

  /** What follows a member or an item: true for the closing byte, false for a comma. */
  function Separator(s: seq<byte>, close: byte): (r: Parsed<bool>)
    ensures r.Ok? ==> |r.rest| < |s|
  {
    var t := SkipWs(s);
    if t == [] then Bad
    else if t[0] == close then Ok(true, t[1..])
    else if t[0] == COMMA then Ok(false, t[1..])
    else Bad
  }

  /** After the opening brace. */
  function ParseObject(s: seq<byte>): (r: Parsed<seq<Member>>)
    ensures r.Ok? ==> |r.rest| < |s|
    decreases |s|, 2
  {
    match Expect(s, RBRACE)
    case Ok(_, rest) => Ok([], rest)
    case Bad => ParseMembers(s)
  }

  /** A key and its colon. */
  function ParseKey(s: seq<byte>): (r: Parsed<seq<byte>>)
    ensures r.Ok? ==> |r.rest| < |s|
  {
    match Expect(s, QUOTE)
    case Bad => Bad
    case Ok(_, text) =>
      match ParseString(text)
      case Bad => Bad
      case Ok(key, afterKey) =>
        match Expect(afterKey, COLON)
        case Bad => Bad
        case Ok(_, rest) => Ok(key, rest)
  }

  function ParseMembers(s: seq<byte>): (r: Parsed<seq<Member>>)
    ensures r.Ok? ==> |r.rest| < |s|
    decreases |s|, 1
  {
    match ParseKey(s)
    case Bad => Bad
    case Ok(key, afterKey) =>
      match ParseValue(afterKey)
      case Bad => Bad
      case Ok(v, afterValue) =>
        match Separator(afterValue, RBRACE)
        case Bad => Bad
        case Ok(true, rest) => Ok([Member(key, v)], rest)
        case Ok(false, next) =>
          match ParseMembers(next)
          case Bad => Bad
          case Ok(more, rest) => Ok([Member(key, v)] + more, rest)
  }

  /** After the opening bracket. */
  function ParseArray(s: seq<byte>): (r: Parsed<seq<Value>>)
    ensures r.Ok? ==> |r.rest| < |s|
    decreases |s|, 2
  {
    match Expect(s, RBRACKET)
    case Ok(_, rest) => Ok([], rest)
    case Bad => ParseItems(s)
  }

  function ParseItems(s: seq<byte>): (r: Parsed<seq<Value>>)
    ensures r.Ok? ==> |r.rest| < |s|
    decreases |s|, 1
  {
    match ParseValue(s)
    case Bad => Bad
    case Ok(v, afterValue) =>
      match Separator(afterValue, RBRACKET)
      case Bad => Bad
      case Ok(true, rest) => Ok([v], rest)
      case Ok(false, next) =>
        match ParseItems(next)
        case Bad => Bad
        case Ok(more, rest) => Ok([v] + more, rest)
  }

  function Encode(v: Value): seq<byte>
    decreases v, 1
  {
    match v
    case Null => NULL
    case Bool(b) => if b then TRUE else FALSE
    case Num(raw) => raw
    case Str(s) => [QUOTE] + EncodeString(s)
    case Arr(items) => [LBRACKET] + EncodeItems(items)
    case Obj(members) => [LBRACE] + EncodeMembers(members)
  }

  function EncodeItems(items: seq<Value>): seq<byte>
    decreases items, 0
  {
    if items == [] then [RBRACKET]
    else Encode(items[0]) + (if |items| == 1 then [RBRACKET] else [COMMA] + EncodeItems(items[1..]))
  }

  function EncodeMember(m: Member): seq<byte>
    decreases m, 0
  {
    [QUOTE] + EncodeString(m.key) + [COLON] + Encode(m.value)
  }

  function EncodeMembers(members: seq<Member>): seq<byte>
    decreases members, 0
  {
    if members == [] then [RBRACE]
    else
      EncodeMember(members[0]) +
      (if |members| == 1 then [RBRACE] else [COMMA] + EncodeMembers(members[1..]))
  }

  /** Invalid text replaced throughout. */
  function CleanValue(v: Value): Value
    decreases v, 1
  {
    match v
    case Str(s) => Str(Clean(s))
    case Arr(items) => Arr(CleanItems(items))
    case Obj(members) => Obj(CleanMembers(members))
    case _ => v
  }

  function CleanItems(items: seq<Value>): seq<Value>
    decreases items, 0
  {
    if items == [] then [] else [CleanValue(items[0])] + CleanItems(items[1..])
  }

  function CleanMembers(members: seq<Member>): seq<Member>
    decreases members, 0
  {
    if members == [] then []
    else [Member(Clean(members[0].key), CleanValue(members[0].value))] + CleanMembers(members[1..])
  }

  /** The numbers in a value are numbers. */
  predicate WellFormed(v: Value)
    decreases v, 1
  {
    match v
    case Num(raw) => NumLen(raw) == |raw| && IsNumber(raw)
    case Arr(items) => WellFormedItems(items)
    case Obj(members) => WellFormedMembers(members)
    case _ => true
  }

  predicate WellFormedItems(items: seq<Value>)
    decreases items, 0
  {
    items == [] || (WellFormed(items[0]) && WellFormedItems(items[1..]))
  }

  predicate WellFormedMembers(members: seq<Member>)
    decreases members, 0
  {
    members == [] || (WellFormed(members[0].value) && WellFormedMembers(members[1..]))
  }

  // --------------------------------------------------------------- round trip

  lemma {:induction false} NumLenAppend(raw: seq<byte>, rest: seq<byte>)
    requires NumLen(raw) == |raw| && (rest != [] ==> !NumChar(rest[0]))
    ensures NumLen(raw + rest) == |raw|
  {
    if raw != [] {
      assert (raw + rest)[1..] == raw[1..] + rest;
      NumLenAppend(raw[1..], rest);
    } else {
      assert raw + rest == rest;
    }
  }

  lemma NumberBack(raw: seq<byte>, rest: seq<byte>)
    requires WellFormed(Num(raw)) && (rest != [] ==> !NumChar(rest[0]))
    ensures ParseValue(raw + rest) == Ok(Num(raw), rest)
  {
    var s := raw + rest;
    NumLenAppend(raw, rest);
    assert raw != [] && NumChar(raw[0]) && s[0] == raw[0];
    assert s[..|raw|] == raw && s[|raw|..] == rest;
    assert SkipWs(s) == s;
  }

  lemma FirstByte(v: Value)
    requires WellFormed(v)
    ensures Encode(v) != [] && !IsWs(Encode(v)[0]) && Encode(v)[0] != RBRACKET
  {
  }

  /** Decoding inverts encoding, up to replaced text, and leaves what follows. */
  lemma {:induction false} ValueBack(v: Value, rest: seq<byte>)
    requires WellFormed(v)
    requires v.Num? && rest != [] ==> !NumChar(rest[0])
    ensures ParseValue(Encode(v) + rest) == Ok(CleanValue(v), rest)
    decreases v, 1
  {
    match v
    case Null => assert SkipWs(NULL + rest) == NULL + rest;
    case Bool(b) => BoolBack(b, rest);
    case Num(raw) => NumberBack(raw, rest);
    case Str(t) => TextBack(t, rest);
    case Arr(items) =>
      ArrayBack(items, rest);
      Opened(LBRACKET, EncodeItems(items), rest);
    case Obj(members) =>
      ObjectBack(members, rest);
      Opened(LBRACE, EncodeMembers(members), rest);
  }

  lemma Opened(c: byte, s: seq<byte>, rest: seq<byte>)
    requires !IsWs(c)
    ensures SkipWs([c] + s + rest) == [c] + s + rest
    ensures ([c] + s + rest)[1..] == s + rest
  {
  }

  lemma BoolBack(b: bool, rest: seq<byte>)
    ensures ParseValue(Encode(Bool(b)) + rest) == Ok(Bool(b), rest)
  {
    var s := Encode(Bool(b)) + rest;
    assert SkipWs(s) == s && !(NULL <= s);
  }

  lemma TextBack(t: seq<byte>, rest: seq<byte>)
    ensures ParseValue(Encode(Str(t)) + rest) == Ok(Str(Clean(t)), rest)
  {
    Opened(QUOTE, EncodeString(t), rest);
    StringBack(t, rest);
  }

  lemma ExpectBack(c: byte, rest: seq<byte>)
    requires !IsWs(c)
    ensures Expect([c] + rest, c) == Ok((), rest)
    ensures Separator([c] + rest, c) == Ok(true, rest)
    ensures c == COMMA ==> forall d :: d != COMMA ==> Separator([c] + rest, d) == Ok(false, rest)
  {
    assert SkipWs([c] + rest) == [c] + rest && ([c] + rest)[1..] == rest;
  }

  lemma ExpectOther(s: seq<byte>, c: byte)
    requires s != [] && !IsWs(s[0]) && s[0] != c
    ensures Expect(s, c) == Bad
  {
  }

  lemma {:induction false} ArrayBack(items: seq<Value>, rest: seq<byte>)
    requires WellFormedItems(items)
    ensures ParseArray(EncodeItems(items) + rest) == Ok(CleanItems(items), rest)
    decreases items, 1
  {
    if items == [] {
      ExpectBack(RBRACKET, rest);
    } else {
      FirstByte(items[0]);
      var tail := ItemsHead(items, rest);
      ExpectOther(Encode(items[0]) + tail, RBRACKET);
      ItemsBack(items, rest);
    }
  }

  lemma CleanOneItem(items: seq<Value>)
    requires |items| == 1
    ensures CleanItems(items) == [CleanValue(items[0])]
  {
    assert CleanItems(items[1..]) == [];
  }

  lemma CleanOneMember(members: seq<Member>)
    requires |members| == 1
    ensures CleanMembers(members) == [Member(Clean(members[0].key), CleanValue(members[0].value))]
  {
    assert CleanMembers(members[1..]) == [];
  }

  /** The first item and the rest of an encoded array. */
  lemma ItemsHead(items: seq<Value>, rest: seq<byte>) returns (tail: seq<byte>)
    requires items != []
    ensures EncodeItems(items) + rest == Encode(items[0]) + tail
    ensures |items| == 1 ==> tail == [RBRACKET] + rest
    ensures |items| > 1 ==> tail == [COMMA] + (EncodeItems(items[1..]) + rest)
  {
    var sep := if |items| == 1 then [RBRACKET] else [COMMA] + EncodeItems(items[1..]);
    tail := sep + rest;
    assert Encode(items[0]) + sep + rest == Encode(items[0]) + (sep + rest);
  }

  lemma {:induction false} ItemsBack(items: seq<Value>, rest: seq<byte>)
    requires WellFormedItems(items) && items != []
    ensures ParseItems(EncodeItems(items) + rest) == Ok(CleanItems(items), rest)
    decreases items, 0
  {
    var tail := ItemsHead(items, rest);
    ValueBack(items[0], tail);
    if |items| == 1 {
      ExpectBack(RBRACKET, rest);
      CleanOneItem(items);
    } else {
      ExpectBack(COMMA, EncodeItems(items[1..]) + rest);
      ItemsBack(items[1..], rest);
    }
  }

  lemma KeyBack(key: seq<byte>, rest: seq<byte>)
    ensures ParseKey([QUOTE] + (EncodeString(key) + ([COLON] + rest))) == Ok(Clean(key), rest)
  {
    ExpectBack(QUOTE, EncodeString(key) + ([COLON] + rest));
    StringBack(key, [COLON] + rest);
    ExpectBack(COLON, rest);
  }

  /** One member with what follows it. */
  lemma MemberSplit(m: Member, tail: seq<byte>)
    ensures EncodeMember(m) + tail == [QUOTE] + (EncodeString(m.key) + ([COLON] + (Encode(m.value) + tail)))
  {
    var a, b, c := EncodeString(m.key), [COLON], Encode(m.value);
    assert [QUOTE] + a + b + c + tail == [QUOTE] + (a + (b + (c + tail)));
  }

  lemma {:induction false} ObjectBack(members: seq<Member>, rest: seq<byte>)
    requires WellFormedMembers(members)
    ensures ParseObject(EncodeMembers(members) + rest) == Ok(CleanMembers(members), rest)
    decreases members, 1
  {
    if members == [] {
      ExpectBack(RBRACE, rest);
    } else {
      var tail := MembersHead(members, rest);
      MemberSplit(members[0], tail);
      ExpectOther(EncodeMember(members[0]) + tail, RBRACE);
      MembersBack(members, rest);
    }
  }

  /** The first member and the rest of an encoded object. */
  lemma MembersHead(members: seq<Member>, rest: seq<byte>) returns (tail: seq<byte>)
    requires members != []
    ensures EncodeMembers(members) + rest == EncodeMember(members[0]) + tail
    ensures |members| == 1 ==> tail == [RBRACE] + rest
    ensures |members| > 1 ==> tail == [COMMA] + (EncodeMembers(members[1..]) + rest)
  {
    var sep := if |members| == 1 then [RBRACE] else [COMMA] + EncodeMembers(members[1..]);
    tail := sep + rest;
    assert EncodeMember(members[0]) + sep + rest == EncodeMember(members[0]) + (sep + rest);
  }

  lemma MemberBack(m: Member, tail: seq<byte>)
    requires ParseValue(Encode(m.value) + tail) == Ok(CleanValue(m.value), tail)
    ensures ParseKey(EncodeMember(m) + tail) == Ok(Clean(m.key), Encode(m.value) + tail)
  {
    MemberSplit(m, tail);
    KeyBack(m.key, Encode(m.value) + tail);
  }

  lemma LastMember(s: seq<byte>, key: seq<byte>, afterKey: seq<byte>, v: Value, rest: seq<byte>)
    requires ParseKey(s) == Ok(key, afterKey) && ParseValue(afterKey) == Ok(v, [RBRACE] + rest)
    ensures ParseMembers(s) == Ok([Member(key, v)], rest)
  {
    ExpectBack(RBRACE, rest);
  }

  lemma MoreMembers(s: seq<byte>, key: seq<byte>, afterKey: seq<byte>, v: Value,
                    next: seq<byte>, more: seq<Member>, rest: seq<byte>)
    requires ParseKey(s) == Ok(key, afterKey) && ParseValue(afterKey) == Ok(v, [COMMA] + next)
    requires ParseMembers(next) == Ok(more, rest)
    ensures ParseMembers(s) == Ok([Member(key, v)] + more, rest)
  {
    ExpectBack(COMMA, next);
  }

  lemma {:induction false} MembersBack(members: seq<Member>, rest: seq<byte>)
    requires WellFormedMembers(members) && members != []
    ensures ParseMembers(EncodeMembers(members) + rest) == Ok(CleanMembers(members), rest)
    decreases members, 0
  {
    var m := members[0];
    var tail := MembersHead(members, rest);
    var s := EncodeMember(m) + tail;
    ValueBack(m.value, tail);
    MemberBack(m, tail);
    if |members| == 1 {
      LastMember(s, Clean(m.key), Encode(m.value) + tail, CleanValue(m.value), rest);
      CleanOneMember(members);
    } else {
      var next := EncodeMembers(members[1..]) + rest;
      MembersBack(members[1..], rest);
      MoreMembers(s, Clean(m.key), Encode(m.value) + tail, CleanValue(m.value),
                  next, CleanMembers(members[1..]), rest);
    }
  }
}
