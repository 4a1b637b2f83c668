/** The demultiplexer of container logs: `dockerContainer.Run` (internal/cri/docker.go:199-270).
    The log stream is a sequence of frames: an 8 byte header, with the stream in the first
    byte and the length in the last four, big endian, and then the payload
    (Docker Engine API, container attach, "Stream format"). */
module Demux {
  import opened Bytes
  import opened Wrappers

  const CHUNK: nat := 4096
  const MAX_LENGTH: nat := 0x1_0000_0000

  /** Exit: the stream ended where a header could begin. A frame of stream 0 panics, and so
      does payload of a stream above 2, which has no writer. */
  datatype End = Exit | IOError | Panic

  /** Bytes for the two writers, and for one writer that is used as both. */
  datatype Output = Output(out: seq<byte>, err: seq<byte>, both: seq<byte>, end: End)

  function Nothing(end: End): Output { Output([], [], [], end) }

  function Prepend(kind: byte, bytes: seq<byte>, o: Output): Output {
    if kind == 1 then o.(out := bytes + o.out, both := bytes + o.both)
    else o.(err := bytes + o.err, both := bytes + o.both)
  }

  // ----------------------------------------------------------------- big endian

  function BigEndian(b: seq<byte>): nat
    requires |b| == 4
  {
    var high: int := b[0];
    ((high * 256 + b[1]) * 256 + b[2]) * 256 + b[3]
  }

  function ToBigEndian(n: nat): (b: seq<byte>)
    requires n < MAX_LENGTH
    ensures |b| == 4
  {
    [n / 16777216, n / 65536 % 256, n / 256 % 256, n % 256]
  }

  lemma BigEndianInverse(n: nat)
    requires n < MAX_LENGTH
    ensures BigEndian(ToBigEndian(n)) == n
  {
    var a, b := n / 256, n / 65536;
    assert n == a * 256 + n % 256;
    assert a / 256 == b && a == b * 256 + a % 256;
    assert b / 256 == n / 16777216 && b == b / 256 * 256 + b % 256;
  }

  lemma BigEndianBack(b: seq<byte>)
    requires |b| == 4
    ensures BigEndian(b) < MAX_LENGTH && ToBigEndian(BigEndian(b)) == b
  {
    var high: int := b[0];
    var x := high * 256 + b[1];
    var y := x * 256 + b[2];
    var n := y * 256 + b[3];
    assert n / 256 == y && n % 256 == b[3];
    assert y / 256 == x && y % 256 == b[2];
    assert n / 65536 == x && n / 16777216 == b[0];
    assert x % 256 == b[1];
  }

  /** The digits of a length: the first byte is the most significant one. */
  lemma BigEndianDigits(z: seq<byte>, x: byte)
    requires |z| == 3
    ensures BigEndian([0, 0, 0, 0]) == 0
    ensures BigEndian(z + [x]) == 256 * BigEndian([0] + z) + x
  {
  }

  // ----------------------------------------------------- the simple form: by frame

  /** The stream `s` frame by frame; `broken` says that after `s` comes an error, not EOF. */
  function Split(s: seq<byte>, broken: bool): Output
    decreases |s|, 1
  {
    if s == [] then Nothing(if broken then IOError else Exit)
    else if |s| < 8 then Nothing(IOError)
    else if s[0] == 0 then Nothing(Panic)
    else Payload(s[0], BigEndian(s[4..8]), s[8..], broken)
  }

  /** `n` more bytes of payload come first. A payload that is cut short is written as far as
      whole chunks go. */
  function Payload(kind: byte, n: nat, s: seq<byte>, broken: bool): Output
    requires kind != 0
    decreases |s|, if n == 0 then 2 else 3
  {
    if n == 0 then Split(s, broken)
    else if kind > 2 then Nothing(if |s| < n && |s| < CHUNK then IOError else Panic)
    else if |s| < n then Prepend(kind, s[..|s| / CHUNK * CHUNK], Nothing(IOError))
    else Prepend(kind, s[..n], Split(s[n..], broken))
  }

  /** One chunk of a payload. */
  lemma PayloadByChunks(kind: byte, n: nat, s: seq<byte>, broken: bool)
    requires 0 < kind <= 2 && n > 0
    ensures var k := if n > CHUNK then CHUNK else n;
            Payload(kind, n, s, broken) ==
            if |s| < k then Nothing(IOError)
            else Prepend(kind, s[..k], Payload(kind, n - k, s[k..], broken))
  {
    var k := if n > CHUNK then CHUNK else n;
    if |s| < k {
      assert s[..|s| / CHUNK * CHUNK] == [];
    } else if |s| < n {
      var t := s[k..];
      assert |t| / CHUNK * CHUNK == |s| / CHUNK * CHUNK - k;
      assert s[..k] + t[..|t| / CHUNK * CHUNK] == s[..|s| / CHUNK * CHUNK];
    } else {
      assert s[..k] + s[k..][..n - k] == s[..n];
      assert s[k..][n - k..] == s[n..];
    }
  }

  // --------------------------------------------------------- the loop of the source

  class ByteStream {
    var rest: seq<byte>
    const broken: bool

    constructor (s: seq<byte>, b: bool)
      ensures rest == s && broken == b
    {
      rest, broken := s, b;
    }

    /** io.ReadFull into the first `k` bytes of `buf`. `atEnd` is io.EOF: not a byte was left. */
    method ReadFull(buf: array<byte>, k: nat) returns (ok: bool, atEnd: bool)
      requires 0 < k <= buf.Length
      modifies this, buf
      ensures ok == (k <= |old(rest)|) && atEnd == (old(rest) == [] && !broken)
      ensures ok ==> buf[..k] == old(rest)[..k] && rest == old(rest)[k..]
      ensures !ok ==> rest == []
    {
      var n := if k <= |rest| then k else |rest|;
      var src := rest;
      forall i | 0 <= i < n {
        buf[i] := src[i];
      }
      assert buf[..n] == src[..n];
      ok, atEnd := n == k, src == [] && !broken;
      rest := rest[n..];
    }
  }

  /** A writer; a limited one takes `room` more bytes and then fails. */
  class Sink {
    var data: seq<byte>
    var limited: bool
    var room: nat

    constructor ()
      ensures data == [] && !limited
    {
      data, limited, room := [], false, 0;
    }

    method Write(p: seq<byte>) returns (ok: bool)
      modifies this
      ensures limited == old(limited) && ok == (!limited || |p| <= old(room))
      ensures data == old(data) + (if ok then p else p[..old(room)])
      ensures !ok ==> limited && room == 0
    {
      if !limited || |p| <= room {
        data := data + p;
        room := if |p| <= room then room - |p| else room;
        return true;
      }
      data := data + p[..room];
      room := 0;
      return false;
    }
  }

  datatype Result = Exited(code: int) | Failed | WriteFailed | Panicked

  /** `got` has been written, to one writer or to two. */
  ghost predicate Written(stdout: Sink, stderr: Sink, out0: seq<byte>, err0: seq<byte>, got: Output)
    reads stdout, stderr
  {
    if stdout == stderr then stdout.data == out0 + got.both
    else stdout.data == out0 + got.out && stderr.data == err0 + got.err
  }

  function Append(kind: byte, got: Output, bytes: seq<byte>): Output {
    if kind == 1 then got.(out := got.out + bytes, both := got.both + bytes)
    else got.(err := got.err + bytes, both := got.both + bytes)
  }

  function Join(got: Output, more: Output): Output {
    Output(got.out + more.out, got.err + more.err, got.both + more.both, more.end)
  }

  lemma JoinPrepend(kind: byte, got: Output, bytes: seq<byte>, more: Output)
    ensures Join(got, Prepend(kind, bytes, more)) == Join(Append(kind, got, bytes), more)
  {
    if kind == 1 {
      assert got.out + (bytes + more.out) == (got.out + bytes) + more.out;
    } else {
      assert got.err + (bytes + more.err) == (got.err + bytes) + more.err;
    }
    assert got.both + (bytes + more.both) == (got.both + bytes) + more.both;
  }

  lemma PartWritten(kind: byte, got: Output, bytes: seq<byte>, k: nat, more: Output)
    requires k <= |bytes|
    ensures Begins(Append(kind, got, bytes[..k]), Join(Append(kind, got, bytes), more))
  {
    assert bytes[..k] <= bytes;
    if kind == 1 {
      assert (got.out + bytes + more.out)[..|got.out| + k] == got.out + bytes[..k];
    } else {
      assert (got.err + bytes + more.err)[..|got.err| + k] == got.err + bytes[..k];
    }
    assert (got.both + bytes + more.both)[..|got.both| + k] == got.both + bytes[..k];
  }

  predicate Begins(got: Output, full: Output) {
    got.out <= full.out && got.err <= full.err && got.both <= full.both
  }

  /** How a run that stops before the end of the stream relates to `full`, the whole. */
  predicate Stops(result: Result, got: Output, full: Output) {
    match result
    case Exited(_) => full.end == Exit && got == full.(end := got.end)
    case Failed => full.end != Panic && got == full.(end := got.end)
    case Panicked => full.end == Panic && got == full.(end := got.end)
    case WriteFailed => Begins(got, full)
  }

  /** A write that fails has written a beginning of all that there was to write. */
  method WriteChunk(kind: byte, chunk: seq<byte>, stdout: Sink, stderr: Sink,
                    ghost out0: seq<byte>, ghost err0: seq<byte>, ghost got0: Output, ghost more: Output)
    returns (ok: bool, ghost got: Output)
    requires Written(stdout, stderr, out0, err0, got0)
    modifies stdout, stderr
    ensures Written(stdout, stderr, out0, err0, got)
    ensures ok ==> got == Append(kind, got0, chunk)
    ensures !ok ==> Begins(got, Join(Append(kind, got0, chunk), more)) && (stdout.limited || stderr.limited)
    ensures stdout.limited == old(stdout.limited) && stderr.limited == old(stderr.limited)
  {
    var w := if kind == 1 then stdout else stderr;
    ghost var took := if w.limited && w.room < |chunk| then w.room else |chunk|;
    ok := w.Write(chunk);
    assert chunk[..|chunk|] == chunk;
    got := Append(kind, got0, chunk[..took]);
    PartWritten(kind, got0, chunk, took, more);
  }

  /** What a stop in the middle of the stream promises, where `full` is all that there was to write. */
  predicate Stopped(result: Result, got: Output, full: Output, limited: bool) {
    && !result.Exited? && Stops(result, got, full)
    && (result == Failed ==> full.end == IOError) && (result == WriteFailed ==> limited)
  }

  /** Nothing more is written when the input ends or a stream has no writer. */
  lemma StopsHere(got: Output, end: End, limited: bool)
    ensures end == IOError ==> Stopped(Failed, got, Join(got, Nothing(end)), limited)
    ensures end == Panic ==> Stopped(Panicked, got, Join(got, Nothing(end)), limited)
  {
    assert Join(got, Nothing(end)) == got.(end := end);
  }

  /** One chunk of a payload into the buffer; None means that there is one, and a writer for it. */
  method ReadChunk(kind: byte, n: nat, rd: ByteStream, buf: array<byte>) returns (stop: Option<Result>, toRead: nat)
    requires kind != 0 && n > 0 && buf.Length == 4096
    modifies rd, buf
    ensures |rd.rest| <= |old(rd.rest)| && toRead == (if n > 4096 then 4096 else n)
    ensures var payload := Payload(kind, n, old(rd.rest), rd.broken);
            match stop
            case None =>
              payload == Prepend(kind, buf[..toRead], Payload(kind, n - toRead, rd.rest, rd.broken))
            case Some(result) =>
              (result == Failed && payload == Nothing(IOError)) || (result == Panicked && payload == Nothing(Panic))
  {
    if kind <= 2 {
      PayloadByChunks(kind, n, rd.rest, rd.broken);
    }
    var max := 4096;
    toRead := n;
    if toRead > max {
      toRead := max;
    }
    var ok, _ := rd.ReadFull(buf, toRead);
    stop := if !ok then Some(Failed) else if kind > 2 then Some(Panicked) else None;
  }

  /** One round of the inner loop; None means that the chunk was written. */
  method CopyChunk(kind: byte, n: nat, rd: ByteStream, buf: array<byte>, stdout: Sink, stderr: Sink,
                   ghost out0: seq<byte>, ghost err0: seq<byte>, ghost got0: Output)
    returns (stop: Option<Result>, toRead: nat, ghost got: Output)
    requires kind != 0 && n > 0 && buf.Length == 4096 && Written(stdout, stderr, out0, err0, got0)
    modifies rd, stdout, stderr, buf
    ensures Written(stdout, stderr, out0, err0, got)
    ensures |rd.rest| <= |old(rd.rest)| && toRead == (if n > 4096 then 4096 else n)
    ensures var full := Join(got0, Payload(kind, n, old(rd.rest), rd.broken));
            match stop
            case None => full == Join(got, Payload(kind, n - toRead, rd.rest, rd.broken))
            case Some(result) => Stopped(result, got, full, stdout.limited || stderr.limited)
    ensures stdout.limited == old(stdout.limited) && stderr.limited == old(stderr.limited)
  {
    stop, toRead := ReadChunk(kind, n, rd, buf);
    got := got0;
    if stop.Some? {
      StopsHere(got, if stop.value == Failed then IOError else Panic, stdout.limited || stderr.limited);
      return;
    }
    ghost var more := Payload(kind, n - toRead, rd.rest, rd.broken);
    JoinPrepend(kind, got, buf[..toRead], more);
    var ok;
    ok, got := WriteChunk(kind, buf[..toRead], stdout, stderr, out0, err0, got, more);
    if !ok {
      stop := Some(WriteFailed);
    }
  }

  /** The inner loop: the payload of one frame, in chunks. None means that all of it was written. */
  method CopyPayload(kind: byte, length: nat, rd: ByteStream, buf: array<byte>, stdout: Sink, stderr: Sink,
                     ghost out0: seq<byte>, ghost err0: seq<byte>, ghost got0: Output)
    returns (stop: Option<Result>, ghost got: Output)
    requires kind != 0 && buf.Length == 4096 && Written(stdout, stderr, out0, err0, got0)
    modifies rd, stdout, stderr, buf
    ensures Written(stdout, stderr, out0, err0, got)
    ensures |rd.rest| <= |old(rd.rest)|
    ensures var full := Join(got0, Payload(kind, length, old(rd.rest), rd.broken));
            match stop
            case None => full == Join(got, Split(rd.rest, rd.broken))
            case Some(result) => Stopped(result, got, full, stdout.limited || stderr.limited)
    ensures stdout.limited == old(stdout.limited) && stderr.limited == old(stderr.limited)
  {
    ghost var full := Join(got0, Payload(kind, length, rd.rest, rd.broken));
    var n := length;
    got := got0;
    while n > 0
      invariant |rd.rest| <= |old(rd.rest)|
      invariant Written(stdout, stderr, out0, err0, got)
      invariant full == Join(got, Payload(kind, n, rd.rest, rd.broken))
      invariant stdout.limited == old(stdout.limited) && stderr.limited == old(stderr.limited)
    {
      var toRead;
      stop, toRead, got := CopyChunk(kind, n, rd, buf, stdout, stderr, out0, err0, got);
      if stop.Some? {
        return;
      }
      n := n - toRead;
    }
    stop := None;
  }

  datatype Header = AtEnd | CutShort | ForStdin | Frames(kind: byte, length: nat)

  /** The next header. */
  method ReadHeader(rd: ByteStream, buf: array<byte>) returns (h: Header)
    requires buf.Length == 4096
    modifies rd, buf
    ensures var whole := Split(old(rd.rest), rd.broken);
            match h
            case AtEnd => whole == Nothing(Exit)
            case CutShort => whole == Nothing(IOError)
            case ForStdin => whole == Nothing(Panic)
            case Frames(kind, n) =>
              kind != 0 && whole == Payload(kind, n, rd.rest, rd.broken) && |rd.rest| < |old(rd.rest)|
  {
    ghost var before := rd.rest;
    var ok, atEnd := rd.ReadFull(buf, 8);
    if atEnd {
      return AtEnd;
    }
    if !ok {
      return CutShort;
    }
    var streamType := buf[0];
    if streamType == 0 {
      return ForStdin;
    }
    assert buf[4..8] == buf[..8][4..8] && before[..8][4..8] == before[4..8];
    h := Frames(streamType, BigEndian(buf[4..8]));
  }

  lemma EndsHere(got: Output, end: End)
    ensures Join(got, Nothing(end)) == got.(end := end)
  {
  }

  /** `inspect` is the exit code that the container has in the end, unless asking fails. The
      run returns an exit code only at the end of the last frame, and it has then written the
      whole of what the frames hold; otherwise it has written what comes before the fault. */
  method Run(startOk: bool, logsOk: bool, inspect: Option<int>, rd: ByteStream, stdout: Sink, stderr: Sink)
    returns (result: Result, ghost got: Output)
    modifies rd, stdout, stderr
    ensures Written(stdout, stderr, old(stdout.data), old(stderr.data), got)
    ensures !startOk || !logsOk ==> result == Failed && got == Nothing(Exit)
    ensures startOk && logsOk ==>
              var full := Split(old(rd.rest), rd.broken);
              && Stops(result, got, full)
              && (result == Failed ==> full.end == IOError || inspect == None)
              && (result.Exited? ==> inspect == Some(result.code))
              && (result == WriteFailed ==> stdout.limited || stderr.limited)
  {
    got := Nothing(Exit);
    if !startOk || !logsOk {
      return Failed, got;
    }
    ghost var full := Split(rd.rest, rd.broken);
    var buf := new byte[4096];
    while true
      invariant fresh(buf) && buf.Length == 4096
      invariant Written(stdout, stderr, old(stdout.data), old(stderr.data), got)
      invariant full == Join(got, Split(rd.rest, rd.broken))
      decreases |rd.rest|
    {
      var h := ReadHeader(rd, buf);
      EndsHere(got, if h.AtEnd? then Exit else if h.CutShort? then IOError else Panic);
      if h.AtEnd? {
        return if inspect == None then Failed else Exited(inspect.value), got;
      }
      if h.CutShort? {
        return Failed, got;
      }
      if h.ForStdin? {
        return Panicked, got;
      }
      var stop;
      stop, got := CopyPayload(h.kind, h.length, rd, buf, stdout, stderr,
                               old(stdout.data), old(stderr.data), got);
      if stop.Some? {
        return stop.value, got;
      }
    }
  }

  // ------------------------------------------------------------- the multiplexer

  datatype Frame = Frame(kind: byte, pad: seq<byte>, payload: seq<byte>)

  /** Streams above 2 are tolerated as long as they carry nothing. */
  predicate ValidFrame(f: Frame) {
    f.kind != 0 && |f.pad| == 3 && |f.payload| < MAX_LENGTH && (f.kind > 2 ==> f.payload == [])
  }

  predicate ValidFrames(fs: seq<Frame>) {
    forall i :: 0 <= i < |fs| ==> ValidFrame(fs[i])
  }

  function Encode(f: Frame): seq<byte>
    requires ValidFrame(f)
  {
    [f.kind] + f.pad + ToBigEndian(|f.payload|) + f.payload
  }

  function Mux(fs: seq<Frame>): seq<byte>
    requires ValidFrames(fs)
  {
    if fs == [] then [] else Encode(fs[0]) + Mux(fs[1..])
  }

  /** The payloads of each stream, and of all, in order. */
  function Payloads(fs: seq<Frame>): Output {
    if fs == [] then Nothing(Exit)
    else if fs[0].kind > 2 then Payloads(fs[1..])
    else Prepend(fs[0].kind, fs[0].payload, Payloads(fs[1..]))
  }

  lemma EncodeParts(f: Frame)
    requires ValidFrame(f)
    ensures |Encode(f)| == 8 + |f.payload| && Encode(f)[0] == f.kind
    ensures Encode(f)[4..8] == ToBigEndian(|f.payload|) && Encode(f)[8..] == f.payload
  {
    var head := [f.kind] + f.pad;
    assert Encode(f) == head + (ToBigEndian(|f.payload|) + f.payload);
  }

  /** A frame at the head of a stream is taken off as a whole. */
  lemma FrameFirst(f: Frame, rest: seq<byte>, broken: bool)
    requires ValidFrame(f)
    ensures Split(Encode(f) + rest, broken) ==
            if f.kind > 2 then Split(rest, broken) else Prepend(f.kind, f.payload, Split(rest, broken))
  {
    var s := Encode(f) + rest;
    var n := |f.payload|;
    BigEndianInverse(n);
    EncodeParts(f);
    assert s[4..8] == Encode(f)[4..8];
    assert s[8..] == Encode(f)[8..] + rest;
    assert (f.payload + rest)[..n] == f.payload && (f.payload + rest)[n..] == rest;
    if n == 0 && f.kind <= 2 {
      var o := Split(rest, broken);
      assert [] + o.out == o.out && [] + o.err == o.err && [] + o.both == o.both;
    }
  }

  /** A frame with its header written out: the stream, three bytes of no meaning, and the length
      with the high byte first. Stream 1 goes to stdout and stream 2 to stderr, and each
      to a writer that is used as both. */
  lemma FrameFields(kind: byte, pad: seq<byte>, b3: byte, b2: byte, b1: byte, b0: byte,
                    payload: seq<byte>, rest: seq<byte>, broken: bool)
    requires (kind == 1 || kind == 2) && |pad| == 3
    requires |payload| == 16777216 * b3 as int + 65536 * b2 as int + 256 * b1 as int + b0 as int
    ensures var o := Split([kind] + pad + [b3, b2, b1, b0] + payload + rest, broken);
            var more := Split(rest, broken);
            && o.out == (if kind == 1 then payload + more.out else more.out)
            && o.err == (if kind == 2 then payload + more.err else more.err)
            && o.both == payload + more.both && o.end == more.end
  {
    var size, more := [b3, b2, b1, b0], Split(rest, broken);
    var s := [kind] + pad + size + payload + rest;
    assert s[4..8] == size && s[8..] == payload + rest;
    assert BigEndian(size) == |payload|;
    assert (payload + rest)[..|payload|] == payload && (payload + rest)[|payload|..] == rest;
    if payload == [] {
      assert payload + more.both == more.both && payload + more.out == more.out && payload + more.err == more.err;
    }
  }

  /** What is refused: the standard input at once, and an unknown stream when the first chunk of
      its payload has been read, which is an error if the stream ends before. */
  lemma FramesRefused(kind: byte, pad: seq<byte>, size: seq<byte>, rest: seq<byte>, broken: bool)
    requires |pad| == 3 && |size| == 4 && (kind == 0 || kind > 2) && BigEndian(size) > 0
    ensures var chunk := if BigEndian(size) > 4096 then 4096 else BigEndian(size);
            Split([kind] + pad + size + rest, broken) ==
            Output([], [], [], if kind > 2 && |rest| < chunk then IOError else Panic)
  {
    var s := [kind] + pad + size + rest;
    assert s[4..8] == size && s[8..] == rest;
  }

  /** Nothing is written for the header alone, nor for a frame without payload. */
  lemma HeaderOnly(s: seq<byte>, broken: bool)
    requires |s| < 8
    ensures Split(s, broken) == Output([], [], [], if s == [] && !broken then Exit else IOError)
  {
  }

  /** Demultiplexing inverts multiplexing, for all frames. */
  lemma {:induction false} DemuxInvertsMux(fs: seq<Frame>)
    requires ValidFrames(fs)
    ensures Split(Mux(fs), false) == Payloads(fs)
  {
    if fs != [] {
      DemuxInvertsMux(fs[1..]);
      FrameFirst(fs[0], Mux(fs[1..]), false);
    }
  }

  /** `k` bytes are a whole number of the frames. */
  ghost predicate Boundary(fs: seq<Frame>, k: nat)
    requires ValidFrames(fs)
  {
    exists j :: 0 <= j <= |fs| && k == |Mux(fs[..j])|
  }

  lemma PrependPrefix(kind: byte, bytes: seq<byte>, a: Output, b: Output)
    requires Begins(a, b)
    ensures Begins(Prepend(kind, bytes, a), Prepend(kind, bytes, b))
  {
    if kind == 1 {
      assert (bytes + b.out)[..|bytes + a.out|] == bytes + b.out[..|a.out|];
    } else {
      assert (bytes + b.err)[..|bytes + a.err|] == bytes + b.err[..|a.err|];
    }
    assert (bytes + b.both)[..|bytes + a.both|] == bytes + b.both[..|a.both|];
  }

  /** A frame that is cut short gives an error, and at most a prefix of its payload. */
  lemma FrameCut(f: Frame, k: nat, broken: bool)
    requires ValidFrame(f) && 0 < k < |Encode(f)|
    ensures var o := Split(Encode(f)[..k], broken);
            && o.end == IOError
            && Begins(o, if f.kind > 2 then Nothing(Exit) else Prepend(f.kind, f.payload, Nothing(Exit)))
  {
    var s := Encode(f)[..k];
    var n := |f.payload|;
    if k >= 8 {
      BigEndianInverse(n);
      EncodeParts(f);
      assert s[4..8] == Encode(f)[4..8];
      assert s[8..] == Encode(f)[8..][..k - 8];
      var cut := f.payload[..k - 8];
      assert cut[..|cut| / CHUNK * CHUNK] == f.payload[..|cut| / CHUNK * CHUNK];
    }
  }

  /** Cutting the multiplexed stream anywhere: the exit code is returned exactly when the cut
      falls on a frame boundary and the stream ends with EOF; any other cut is an error. In
      each case what was written is a prefix of what the whole stream gives. */
  lemma {:induction false} CutAnywhere(fs: seq<Frame>, k: nat, broken: bool)
    requires ValidFrames(fs) && k <= |Mux(fs)|
    ensures var o := Split(Mux(fs)[..k], broken);
            && Begins(o, Payloads(fs))
            && o.end == (if Boundary(fs, k) && !broken then Exit else IOError)
  {
    if k == 0 {
      assert fs[..0] == [];
      assert Boundary(fs, 0);
    } else {
      var e := Encode(fs[0]);
      var rest := Mux(fs[1..]);
      if k < |e| {
        assert Mux(fs)[..k] == e[..k];
        FrameCut(fs[0], k, broken);
        forall j | 0 <= j <= |fs|
          ensures k != |Mux(fs[..j])|
        {
          assert j > 0 ==> fs[..j][0] == fs[0] && fs[..j][1..] == fs[1..j];
        }
      } else {
        assert Mux(fs)[..k] == e + rest[..k - |e|];
        FrameFirst(fs[0], rest[..k - |e|], broken);
        CutAnywhere(fs[1..], k - |e|, broken);
        PrependPrefix(fs[0].kind, fs[0].payload, Split(rest[..k - |e|], broken), Payloads(fs[1..]));
        BoundaryLater(fs, k);
      }
    }
  }

  lemma BoundaryLater(fs: seq<Frame>, k: nat)
    requires ValidFrames(fs) && fs != [] && k >= |Encode(fs[0])|
    ensures Boundary(fs, k) <==> Boundary(fs[1..], k - |Encode(fs[0])|)
  {
    var e := |Encode(fs[0])|;
    if Boundary(fs, k) {
      var j :| 0 <= j <= |fs| && k == |Mux(fs[..j])|;
      assert j > 0 ==> fs[..j][0] == fs[0] && fs[..j][1..] == fs[1..][..j - 1];
      assert k - e == |Mux(fs[1..][..j - 1])|;
    }
    if Boundary(fs[1..], k - e) {
      var j :| 0 <= j <= |fs[1..]| && k - e == |Mux(fs[1..][..j])|;
      assert fs[..j + 1][0] == fs[0] && fs[..j + 1][1..] == fs[1..][..j];
      assert k == |Mux(fs[..j + 1])|;
    }
  }

  /** The exit code is returned on multiplexed streams and on nothing else. */
  lemma {:induction false} ExitExactlyOnFrames(s: seq<byte>)
    ensures Split(s, false).end == Exit <==> exists fs :: ValidFrames(fs) && s == Mux(fs)
    decreases |s|
  {
    if Split(s, false).end == Exit {
      var fs := FramesOf(s);
      assert ValidFrames(fs) && s == Mux(fs);
    }
    if fs :| ValidFrames(fs) && s == Mux(fs) {
      DemuxInvertsMux(fs);
      PayloadsExit(fs);
    }
  }

  lemma {:induction false} PayloadsExit(fs: seq<Frame>)
    ensures Payloads(fs).end == Exit
  {
    if fs != [] {
      PayloadsExit(fs[1..]);
    }
  }

  /** A header at the head of a stream, as a frame. */
  lemma HeadFrame(s: seq<byte>) returns (f: Frame)
    requires s != [] && Split(s, false).end == Exit
    ensures ValidFrame(f) && Encode(f) <= s && Split(s[|Encode(f)|..], false).end == Exit
  {
    var n := BigEndian(s[4..8]);
    BigEndianBack(s[4..8]);
    assert |s[8..]| >= n;
    f := Frame(s[0], s[1..4], s[8..8 + n]);
    assert s[8..][n..] == s[8 + n..] && s[8..][..n] == s[8..8 + n];
    assert Encode(f) == s[..8 + n];
  }

  lemma {:induction false} FramesOf(s: seq<byte>) returns (fs: seq<Frame>)
    requires Split(s, false).end == Exit
    ensures ValidFrames(fs) && s == Mux(fs)
    decreases |s|
  {
    if s == [] {
      fs := [];
    } else {
      var f := HeadFrame(s);
      var rest := FramesOf(s[|Encode(f)|..]);
      fs := [f] + rest;
      assert fs[1..] == rest;
      assert s == Encode(f) + s[|Encode(f)|..];
    }
  }
}
