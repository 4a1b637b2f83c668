/** Lines and white space as they stand in the text, and how far the decoder reads ahead
    (internal/workerproto/proto.go:24-48). */
module FramingLaws {
  import opened Bytes
  import opened Json
  import opened JsonLaws
  import opened Framing

  // ---------------------------------------------------------------- white space

  /** The code points with the property White_Space. */
  predicate White(u: nat) {
    9 <= u <= 13 || u == 32 || u == 0x85 || u == 0xA0 || u == 0x1680 || 0x2000 <= u <= 0x200A ||
    u == 0x2028 || u == 0x2029 || u == 0x202F || u == 0x205F || u == 0x3000
  }

  /** A code point at the start of a text is taken off exactly if it is white space. */
  lemma WhiteAtStart(u: nat, t: seq<byte>)
    requires Scalar(u)
    ensures SpaceAtStart(EncodeRune(u) + t) == if White(u) then |EncodeRune(u)| else 0
  {
    var r := EncodeRune(u);
    var s := r + t;
    assert s[0] == r[0];
    if u >= 0x80 {
      assert s[1] == r[1];
      if u >= 0x800 {
        assert s[2] == r[2];
        if u < 0x1_0000 {
          FourBytes(0, u / 4096, u / 64 % 64, u % 64);
        }
      }
    }
  }

  /** And so at its end. */
  lemma WhiteAtEnd(u: nat, t: seq<byte>)
    requires Scalar(u)
    ensures SpaceAtEnd(t + EncodeRune(u)) == if White(u) then |EncodeRune(u)| else 0
  {
    var r := EncodeRune(u);
    var s := t + r;
    var k, n := |s|, |r|;
    assert s[k - 1] == r[n - 1];
    if u >= 0x80 {
      assert s[k - 2] == r[n - 2];
      if u >= 0x800 {
        assert s[k - 3] == r[n - 3];
      }
    }
  }

  /** A text of white space code points. */
  predicate AllWhite(s: seq<byte>)
    decreases |s|
  {
    s == [] || (SpaceAtStart(s) > 0 && AllWhite(s[SpaceAtStart(s)..]))
  }

  predicate AllWhiteFromEnd(s: seq<byte>)
    decreases |s|
  {
    s == [] || (SpaceAtEnd(s) > 0 && AllWhiteFromEnd(s[..|s| - SpaceAtEnd(s)]))
  }

  lemma {:induction false} TrimRightExactly(s: seq<byte>)
    ensures SpaceAtEnd(TrimRight(s)) == 0 && AllWhiteFromEnd(s[|TrimRight(s)|..])
    decreases |s|
  {
    var n := SpaceAtEnd(s);
    if n > 0 {
      var front := s[..|s| - n];
      TrimRightExactly(front);
      TailGrows(s, n, |TrimRight(front)|);
    }
  }

  lemma TailGrows(s: seq<byte>, n: nat, k: nat)
    requires 0 < n == SpaceAtEnd(s) && k <= |s| - n && AllWhiteFromEnd(s[..|s| - n][k..])
    ensures AllWhiteFromEnd(s[k..])
  {
    var end := s[k..];
    assert end[..|end| - n] == s[..|s| - n][k..];
    SpaceOfSuffix(s, end);
  }

  /** White space at the end is seen whatever is before it. */
  lemma SpaceOfSuffix(s: seq<byte>, end: seq<byte>)
    requires |end| <= |s| && end == s[|s| - |end|..] && SpaceAtEnd(s) <= |end|
    ensures SpaceAtEnd(end) == SpaceAtEnd(s)
  {
    assert |end| >= 1 ==> end[|end| - 1] == s[|s| - 1];
    assert |end| >= 2 ==> end[|end| - 2] == s[|s| - 2];
    assert |end| >= 3 ==> end[|end| - 3] == s[|s| - 3];
  }

  /** How much TrimLeft takes off. */
  function LeftBlank(s: seq<byte>): (k: nat)
    ensures k <= |s|
    decreases |s|
  {
    if SpaceAtStart(s) == 0 then 0 else SpaceAtStart(s) + LeftBlank(s[SpaceAtStart(s)..])
  }

  lemma {:induction false} TrimLeftExactly(s: seq<byte>)
    ensures TrimLeft(s) == s[LeftBlank(s)..]
    ensures SpaceAtStart(TrimLeft(s)) == 0 && AllWhite(s[..LeftBlank(s)])
    decreases |s|
  {
    var n := SpaceAtStart(s);
    if n == 0 {
      assert s[..0] == [] && s[0..] == s;
    } else {
      TrimLeftExactly(s[n..]);
      HeadGrows(s, n, LeftBlank(s[n..]));
    }
  }

  lemma HeadGrows(s: seq<byte>, n: nat, k: nat)
    requires 0 < n == SpaceAtStart(s) && k <= |s| - n && AllWhite(s[n..][..k])
    ensures AllWhite(s[..n + k]) && s[n + k..] == s[n..][k..]
  {
    var start := s[..n + k];
    assert start[n..] == s[n..][..k];
    SpaceOfPrefix(s, start);
  }

  lemma SpaceOfPrefix(s: seq<byte>, start: seq<byte>)
    requires start <= s && SpaceAtStart(s) <= |start|
    ensures SpaceAtStart(start) == SpaceAtStart(s)
  {
  }

  lemma Middle(s: seq<byte>, t: seq<byte>, k: nat)
    requires t <= s && k <= |t|
    ensures s == t[..k] + t[k..] + s[|t|..]
  {
  }

  /** Trimming takes off all white space at both ends, and nothing else. */
  lemma TrimExactly(s: seq<byte>) returns (before: seq<byte>, behind: seq<byte>)
    ensures s == before + Trim(s) + behind && AllWhite(before) && AllWhiteFromEnd(behind)
    ensures SpaceAtStart(Trim(s)) == 0 && SpaceAtEnd(Trim(s)) == 0
  {
    var t := TrimRight(s);
    TrimRightExactly(s);
    TrimLeftExactly(t);
    var k := LeftBlank(t);
    before, behind := t[..k], s[|t|..];
    Middle(s, t, k);
    SpaceOfSuffix(t, t[k..]);
  }

  // ------------------------------------------------------------------- the lines

  /** A trimmed line that holds a packet: a tilde, and an object with a type. */
  predicate HoldsPacket(line: seq<byte>, kind: seq<byte>) {
    |line| > 1 && line[0] == 126 && line[1] == 123 && kind != [] &&
    match ParseValue(line[1..])
    case Ok(Obj(members), _) => PacketKind(members, []) == Kind(kind)
    case _ => false
  }

  /** Nothing of a line is swallowed: a blank one is skipped, a lone tilde is out of range, a line
      that holds a packet is handed over, with what is behind it to be logged, without the
      tilde, and any other line is logged as it is. */
  lemma LineIsConserved(line: seq<byte>, kind: seq<byte>)
    ensures Classify(line).Skip? <==> line == []
    ensures Classify(line).OutOfRange? <==> line == [126]
    ensures Classify(line).Packet? && Classify(line).kind == kind <==> HoldsPacket(line, kind)
    ensures Classify(line).Packet? ==> line == [126] + Classify(line).packet + Classify(line).tail
    ensures Classify(line).Log? ==> line == Classify(line).line
  {
    if Classify(line).Packet? {
      assert line == [line[0]] + line[1..];
    }
  }

  // ---------------------------------------------------------- the decoder's reads

  /** The decoder reads up to the first of its capacities that holds the value, or to the end. */
  lemma ReadsExactly(need: nat, total: nat)
    requires need <= total <= 4096
    ensures var capacity := if need <= 512 then 512 else if need <= 1536 then 1536 else if need <= 3584 then 3584 else 7680;
            Buffered(512, need, total) == if total <= capacity then total else capacity
    ensures FIRST_READ == 512 && BUFFER == 4096
  {
    assert Buffered(512, need, total) ==
           if total <= 512 then total else if need <= 512 then 512 else Buffered(1536, need, total);
    assert Buffered(1536, need, total) ==
           if total <= 1536 then total else if need <= 1536 then 1536 else Buffered(3584, need, total);
    assert Buffered(3584, need, total) ==
           if total <= 3584 then total else if need <= 3584 then 3584 else Buffered(7680, need, total);
  }
}
