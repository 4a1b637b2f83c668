/** The buffer, its readers and the registry as objects (internal/pubsubbuffer). What other
    goroutines do while a reader does not hold the mutex is given as a schedule. */
module PubSubBuffer {
  import opened Bytes
  import Broadcast

  /** What happened while a reader was without the mutex: the writes that were made, whether the buffer was
      then closed, and whether the reader's context ended. */
  datatype Wakeup = Wakeup(writes: seq<seq<byte>>, closes: bool, cancels: bool)

  /** Contents and state of a buffer, with the context of one reader. */
  datatype View = View(contents: seq<byte>, closed: bool, cancelled: bool)

  /** Writes to a closed buffer are refused. */
  function Wake(v: View, w: Wakeup): View {
    View(if v.closed then v.contents else v.contents + Flatten(w.writes),
         v.closed || w.closes, v.cancelled || w.cancels)
  }

  lemma WakeGrows(v: View, w: Wakeup)
    ensures v.contents <= Wake(v, w).contents
    ensures v.closed ==> Wake(v, w).closed && Wake(v, w).contents == v.contents
  {
  }

  lemma FlattenNext(writes: seq<seq<byte>>, i: nat, was: seq<byte>)
    requires i < |writes|
    ensures was + Flatten(writes[..i + 1]) == (was + Flatten(writes[..i])) + writes[i]
  {
    assert writes[..i + 1][..i] == writes[..i];
  }

  datatype ReadOutcome = Returns(res: Broadcast.ReadResult) | StillParked

  /** Read, with the wakeups still to come. */
  function ReadFrom(v: View, offset: nat, len: nat, wakeups: seq<Wakeup>): (ReadOutcome, View)
    requires offset <= |v.contents|
    decreases |wakeups|
  {
    if v.cancelled then (Returns(Broadcast.Cancelled), v)
    else
      match Broadcast.Peek(v.contents, v.closed, offset, len)
      case Found(res) => (Returns(res), v)
      case Nothing =>
        if wakeups == [] then (StillParked, v)
        else ReadFrom(Wake(v, wakeups[0]), offset, len, wakeups[1..])
  }

  /** A read returns the next bytes of the contents at the time it returns, EOF only with
      nothing left in a closed buffer, and stays parked only with nothing left in an open one. */
  lemma {:induction false} ReadIsNext(v: View, offset: nat, len: nat, wakeups: seq<Wakeup>)
    requires offset <= |v.contents|
    ensures var (out, v') := ReadFrom(v, offset, len, wakeups);
            && v.contents <= v'.contents && (v.closed ==> v'.closed && v'.contents == v.contents)
            && (out.Returns? && out.res.Data? ==>
                  |out.res.bytes| <= len && offset < |v'.contents| &&
                  offset + |out.res.bytes| <= |v'.contents| &&
                  out.res.bytes == v'.contents[offset..offset + |out.res.bytes|] &&
                  (|out.res.bytes| < len ==> offset + |out.res.bytes| == |v'.contents|))
            && (out == Returns(Broadcast.EOF) ==> v'.closed && offset == |v'.contents|)
            && (out.StillParked? ==> !v'.closed && !v'.cancelled && offset == |v'.contents|)
            && (out == Returns(Broadcast.Cancelled) <==> v'.cancelled)
    decreases |wakeups|
  {
    if !v.cancelled && Broadcast.Peek(v.contents, v.closed, offset, len).Nothing? && wakeups != [] {
      ReadIsNext(Wake(v, wakeups[0]), offset, len, wakeups[1..]);
    }
  }

  /** One round of the copy loop: what has been copied is still the head of the contents, with
      what the read returns it is a longer one, and at EOF it is all of them. */
  lemma RoundIsNext(v: View, before: Wakeup, offset: nat, len: nat, wakeups: seq<Wakeup>)
    requires offset <= |v.contents|
    ensures var (got, v') := ReadFrom(Wake(v, before), offset, len, wakeups);
            && v.contents <= v'.contents && (v.closed ==> v'.closed && v'.contents == v.contents)
            && v'.contents[..offset] == v.contents[..offset]
            && (got.Returns? && got.res.Data? ==>
                  offset + |got.res.bytes| <= |v'.contents| &&
                  v'.contents[..offset + |got.res.bytes|] == v.contents[..offset] + got.res.bytes)
            && (got == Returns(Broadcast.EOF) ==> v'.closed && offset == |v'.contents|)
  {
    var w := Wake(v, before);
    WakeGrows(v, before);
    ReadIsNext(w, offset, len, wakeups);
    var (got, v') := ReadFrom(w, offset, len, wakeups);
    HeadStays(v.contents, w.contents, v'.contents, offset);
    if got.Returns? && got.res.Data? {
      NextBytes(v'.contents, offset, got.res.bytes);
    }
  }

  lemma HeadStays(a: seq<byte>, b: seq<byte>, c: seq<byte>, offset: nat)
    requires a <= b && b <= c && offset <= |a|
    ensures a <= c && c[..offset] == a[..offset]
  {
  }

  lemma NextBytes(s: seq<byte>, offset: nat, bytes: seq<byte>)
    requires offset + |bytes| <= |s| && s[offset..offset + |bytes|] == bytes
    ensures s[..offset + |bytes|] == s[..offset] + bytes
  {
  }

  /** One round of the copy loop: what others do before Read takes the mutex, and while it waits,
      and whether the client then takes what was read. */
  datatype Turn = Turn(before: Wakeup, wakeups: seq<Wakeup>, clientTakes: bool)

  datatype Served = NotServed | AtEOF | ClientGone | ContextEnded | Waiting | Panicked

  predicate AnyCancels(ws: seq<Wakeup>) { exists i :: 0 <= i < |ws| && ws[i].cancels }

  predicate Cancels(t: Turn) { t.before.cancels || AnyCancels(t.wakeups) }

  lemma {:induction false} ReadCancelled(v: View, offset: nat, len: nat, wakeups: seq<Wakeup>)
    requires offset <= |v.contents|
    ensures ReadFrom(v, offset, len, wakeups).1.cancelled ==> v.cancelled || AnyCancels(wakeups)
    decreases |wakeups|
  {
    if wakeups != [] && !v.cancelled {
      assert forall i :: 0 <= i < |wakeups[1..]| ==> wakeups[1..][i] == wakeups[i + 1];
      ReadCancelled(Wake(v, wakeups[0]), offset, len, wakeups[1..]);
    }
  }

  /** A reader that waits returns as soon as its context ends, before anything that came with it. */
  lemma CancelEndsRead(v: View, offset: nat, len: nat, wakeups: seq<Wakeup>)
    requires offset == |v.contents| && !v.closed && wakeups != [] && wakeups[0].cancels
    ensures ReadFrom(v, offset, len, wakeups).0 == Returns(Broadcast.Cancelled)
  {
    var w := Wake(v, wakeups[0]);
    if !v.cancelled {
      assert ReadFrom(v, offset, len, wakeups) == ReadFrom(w, offset, len, wakeups[1..]);
    }
  }

  /** A read into a buffer with room returns at least one byte, or no data; and of a closed
      buffer all that there is room for. */
  lemma {:induction false} ReadSomething(v: View, offset: nat, len: nat, wakeups: seq<Wakeup>)
    requires offset <= |v.contents| && len > 0
    ensures var got := ReadFrom(v, offset, len, wakeups).0;
            && (got.Returns? && got.res.Data? ==> |got.res.bytes| > 0)
            && (v.closed ==> !got.StillParked?)
            && (v.closed && got.Returns? && got.res.Data? ==>
                  |got.res.bytes| == len || offset + |got.res.bytes| == |v.contents|)
    decreases |wakeups|
  {
    if !v.cancelled && Broadcast.Peek(v.contents, v.closed, offset, len).Nothing? && wakeups != [] {
      ReadSomething(Wake(v, wakeups[0]), offset, len, wakeups[1..]);
    }
  }

  class Buffer {
    var buffer: seq<byte>
    var closed: bool

    constructor ()
      ensures buffer == [] && !closed
    {
      buffer, closed := [], false;
    }

    method Close()
      modifies this
      ensures closed && buffer == old(buffer)
    {
      closed := true;
    }

    method Write(src: seq<byte>) returns (n: nat, ok: bool)
      modifies this
      ensures closed == old(closed) && ok == !old(closed)
      ensures ok ==> n == |src| && buffer == old(buffer) + src
      ensures !ok ==> n == 0 && buffer == old(buffer)
    {
      if closed {
        return 0, false;
      }
      buffer := buffer + src;
      return |src|, true;
    }

    method Len() returns (n: nat)
      ensures n == |buffer|
    {
      n := |buffer|;
    }

    /** The copy loop. `turns` is what happens before and at each call of Read, and whether the
        client then takes what was read. It does not stop without a reason: it loses its client
        only if some turn says so, and its context only if that ends in some turn; and it waits
        only if the turns are over, each with at least one byte copied, or if all of an open
        buffer has been copied. A closed buffer is served completely, in chunks of 4096 bytes, to
        a client that stays and takes everything. */
    method ServeHTTP(isGet: bool, turns: seq<Turn>) returns (status: int, out: seq<byte>, end: Served)
      modifies this
      ensures status == (if isGet then 200 else 405) && end != Panicked
      ensures !isGet ==> out == [] && end == NotServed && buffer == old(buffer) && closed == old(closed)
      ensures old(buffer) <= buffer && (old(closed) ==> closed && buffer == old(buffer))
      ensures out <= buffer && (isGet ==> end != NotServed)
      ensures end == AtEOF ==> closed && out == buffer
      ensures end == ClientGone ==> AnyLeaves(turns)
      ensures end == ContextEnded ==> AnyTurnCancels(turns)
      ensures end == Waiting ==> (!closed && out == buffer) || |out| >= |turns|
      ensures isGet && old(closed) && Patient(turns, |buffer|) ==> end == AtEOF
    {
      if !isGet {
        return 405, [], NotServed;
      }
      status, out := 200, [];
      var rd := new Reader(this);
      var chunk := new byte[4096];
      var i := 0;
      while i < |turns|
        invariant 0 <= i <= |turns|
        invariant rd.offset <= |buffer| && out == buffer[..rd.offset] && i <= |out|
        invariant old(buffer) <= buffer && (old(closed) ==> closed && buffer == old(buffer))
        invariant old(closed) ==> |out| == 4096 * i || |out| == |buffer|
        invariant old(closed) && i > 0 ==> 4096 * (i - 1) < |buffer|
        invariant fresh(rd) && fresh(chunk) && rd.buffer == this && chunk.Length == 4096 && !rd.cancelled
      {
        var got, bytes := rd.Turn(chunk, turns[i]);
        match got {
          case StillParked => return status, out, Waiting;
          case Returns(Cancelled) => return status, out, ContextEnded;
          case Returns(EOF) => return status, out, AtEOF;
          case Returns(Data(_)) =>
            if !turns[i].clientTakes {
              return status, out, ClientGone;
            }
            out := out + bytes;
        }
        i := i + 1;
      }
      end := Waiting;
    }
  }

  predicate AnyLeaves(turns: seq<Turn>) { exists i :: 0 <= i < |turns| && !turns[i].clientTakes }

  /** A client that stays, takes everything, and reads often enough for `size` bytes and EOF. */
  predicate Patient(turns: seq<Turn>, size: nat) {
    !AnyLeaves(turns) && !AnyTurnCancels(turns) && |turns| > (size + 4095) / 4096
  }

  predicate AnyTurnCancels(turns: seq<Turn>) { exists i :: 0 <= i < |turns| && Cancels(turns[i]) }

  /** The builtin copy, of all of `src`. */
  method CopyBytes(dest: array<byte>, src: seq<byte>)
    requires |src| <= dest.Length
    modifies dest
    ensures dest[..] == src + old(dest[..])[|src|..]
  {
    forall k | 0 <= k < |src| {
      dest[k] := src[k];
    }
  }

  class Reader {
    const buffer: Buffer
    var cancelled: bool
    var offset: nat

    constructor (b: Buffer)
      ensures buffer == b && offset == 0 && !cancelled
    {
      buffer, offset, cancelled := b, 0, false;
    }

    function Seen(): View
      reads this, buffer
    {
      View(buffer.buffer, buffer.closed, cancelled)
    }

    method WriteAll(writes: seq<seq<byte>>)
      modifies buffer
      ensures buffer.closed == old(buffer.closed)
      ensures buffer.buffer == old(buffer.buffer) + if buffer.closed then [] else Flatten(writes)
    {
      ghost var was := buffer.buffer;
      for i := 0 to |writes|
        invariant buffer.closed == old(buffer.closed)
        invariant buffer.buffer == was + if buffer.closed then [] else Flatten(writes[..i])
      {
        FlattenNext(writes, i, was);
        var n, ok := buffer.Write(writes[i]);
      }
      assert writes[..|writes|] == writes;
    }

    /** The other goroutines, while this one does not hold the mutex: before it enters Read, or
        in cond.Wait. */
    method Elsewhere(w: Wakeup)
      modifies this, buffer
      ensures Seen() == Wake(old(Seen()), w) && offset == old(offset)
    {
      WriteAll(w.writes);
      if w.closes {
        buffer.Close();
      }
      cancelled := cancelled || w.cancels;
    }

    /** What others do, and then a read of a chunk; `bytes` is what it put into the chunk. */
    method Turn(chunk: array<byte>, t: Turn) returns (got: ReadOutcome, bytes: seq<byte>)
      requires offset <= |buffer.buffer| && chunk.Length == 4096
      modifies this, buffer, chunk
      ensures old(buffer.buffer) <= buffer.buffer
      ensures old(buffer.closed) ==> buffer.closed && buffer.buffer == old(buffer.buffer)
      ensures offset == old(offset) + |bytes| && offset <= |buffer.buffer|
      ensures buffer.buffer[..offset] == old(buffer.buffer[..offset]) + bytes
      ensures got.Returns? && got.res.Data? ==> bytes == got.res.bytes && 0 < |bytes| <= 4096
      ensures got == Returns(Broadcast.EOF) ==> buffer.closed && offset == |buffer.buffer|
      ensures got.StillParked? ==> !buffer.closed && offset == |buffer.buffer|
      ensures got == Returns(Broadcast.Cancelled) <==> cancelled
      ensures cancelled ==> old(cancelled) || Cancels(t)
      ensures old(buffer.closed) && got.Returns? && got.res.Data? ==> |bytes| == 4096 || offset == |buffer.buffer|
      ensures !(got.Returns? && got.res.Data?) ==> bytes == []
    {
      ghost var v := Wake(Seen(), t.before);
      RoundIsNext(Seen(), t.before, offset, 4096, t.wakeups);
      ReadIsNext(v, offset, 4096, t.wakeups);
      ReadSomething(v, offset, 4096, t.wakeups);
      ReadCancelled(v, offset, 4096, t.wakeups);
      Elsewhere(t.before);
      ghost var read;
      got, read := Read(chunk, t.wakeups);
      bytes := if got.Returns? && got.res.Data? then chunk[..|got.res.bytes|] else [];
      assert chunk[..|read|] == read;
    }

    /** The copy of what there is. */
    method Take(dest: array<byte>) returns (src: seq<byte>)
      requires offset < |buffer.buffer|
      modifies this`offset, dest
      ensures Broadcast.Peek(buffer.buffer, buffer.closed, old(offset), dest.Length) ==
              Broadcast.Found(Broadcast.Data(src))
      ensures offset == old(offset) + |src| && offset <= |buffer.buffer|
      ensures |src| <= dest.Length && dest[..] == src + old(dest[..])[|src|..]
    {
      var remainder := |buffer.buffer| - offset;
      var toCopy := dest.Length;
      if remainder < toCopy {
        toCopy := remainder;
      }
      src := buffer.buffer[offset..offset + toCopy];
      CopyBytes(dest, src);
      offset := offset + toCopy;
    }

    /** Read; `got` is what it put at the head of `dest`. */
    method Read(dest: array<byte>, wakeups: seq<Wakeup>) returns (out: ReadOutcome, ghost got: seq<byte>)
      requires offset <= |buffer.buffer|
      modifies this, buffer, dest
      ensures (out, Seen()) == ReadFrom(old(Seen()), old(offset), dest.Length, wakeups)
      ensures got == if out.Returns? then Broadcast.Taken(out.res) else []
      ensures offset == old(offset) + |got| && offset <= |buffer.buffer|
      ensures |got| <= dest.Length && dest[..] == got + old(dest[..])[|got|..]
    {
      ghost var whole := ReadFrom(Seen(), offset, dest.Length, wakeups);
      assert wakeups[0..] == wakeups;
      var i := 0;
      while true
        invariant 0 <= i <= |wakeups| && offset == old(offset) && offset <= |buffer.buffer|
        invariant dest[..] == old(dest[..])
        invariant ReadFrom(Seen(), offset, dest.Length, wakeups[i..]) == whole
        decreases |wakeups| - i
      {
        if cancelled {
          return Returns(Broadcast.Cancelled), [];
        }
        if offset < |buffer.buffer| {
          var src := Take(dest);
          return Returns(Broadcast.Data(src)), src;
        }
        if buffer.closed {
          return Returns(Broadcast.EOF), [];
        }
        if i == |wakeups| {
          return StillParked, [];
        }
        assert wakeups[i..][0] == wakeups[i] && wakeups[i..][1..] == wakeups[i + 1..];
        Elsewhere(wakeups[i]);
        i := i + 1;
      }
    }
  }

  // ------------------------------------------------------------------ the registry

  /** Where a request path leads. The source drops the first character of the path, and the path
      of a request for a bare host is empty. */
  datatype Target = OutOfRange | NoBuffer | Names(id: string)

  function Split(s: string): (parts: seq<string>)
    ensures |parts| >= 1
  {
    if s == "" then [""]
    else
      var rest := Split(s[1..]);
      if s[0] == '/' then [""] + rest else [[s[0]] + rest[0]] + rest[1..]
  }

  function Route(path: string): Target {
    if path == "" then OutOfRange
    else
      var parts := Split(path[1..]);
      var named := if parts[|parts| - 1] == "" then parts[..|parts| - 1] else parts;
      if |named| == 1 then Names(named[0]) else NoBuffer
  }

  lemma {:induction false} SplitOne(s: string)
    ensures |Split(s)| == 1 <==> '/' !in s
    ensures |Split(s)| == 1 ==> Split(s) == [s]
  {
    if s != "" {
      SplitOne(s[1..]);
      assert s == [s[0]] + s[1..];
    }
  }

  /** Two parts, the second empty: one slash, at the end. */
  lemma {:induction false} SplitTwo(s: string, id: string)
    ensures Split(s) == [id, ""] <==> '/' !in id && s == id + "/"
    decreases |s|
  {
    if s != "" {
      assert s == [s[0]] + s[1..];
      if s[0] == '/' {
        SplitEmpty(s[1..]);
        assert Split(s) == [""] + Split(s[1..]);
        assert id == "" ==> id + "/" == "/";
        assert Split(s)[0] == "" && Split(s)[1..] == Split(s[1..]);
        assert [id, ""][0] == id && [id, ""][1..] == [""];
        assert id == "" && Split(s[1..]) == [""] ==> Split(s) == [id, ""];
        assert s == id + "/" && '/' !in id ==> id == "" by {
          if id != "" && s == id + "/" {
            assert s[0] == id[0];
          }
        }
      } else {
        var rest := Split(s[1..]);
        assert Split(s)[0] == [s[0]] + rest[0];
        if id == "" {
          assert id + "/" == "/";
        } else {
          SplitTwo(s[1..], id[1..]);
          assert id == [id[0]] + id[1..];
          assert id + "/" == [id[0]] + (id[1..] + "/");
          if Split(s) == [id, ""] {
            assert [id, ""][0] == id && [id, ""][1..] == [""];
            assert Split(s)[1..] == rest[1..];
            assert id[0] == s[0] && id[1..] == rest[0];
            assert rest == [rest[0]] + rest[1..];
            assert rest == [id[1..], ""];
          }
          if '/' !in id && s == id + "/" {
            assert s[1..] == id[1..] + "/";
            assert rest == [id[1..], ""];
            assert id[0] == s[0];
          }
        }
      }
    }
  }

  lemma SplitEmpty(s: string)
    ensures Split(s) == [""] <==> s == ""
  {
    SplitOne(s);
  }

  /** A path names a buffer exactly when it is one part without a slash, after the leading
      character and with an optional slash at the end; without that slash it is not empty.
      The slice is out of range exactly on the empty path. */
  lemma RouteExactly(path: string, id: string)
    ensures Route(path) == OutOfRange <==> path == ""
    ensures Route(path) == Names(id) <==>
              path != "" && '/' !in id && ((path[1..] == id && id != "") || path[1..] == id + "/")
  {
    if path != "" {
      var s := path[1..];
      SplitOne(s);
      SplitTwo(s, id);
      assert (id + "/")[|id|] == '/';
    }
  }

  class Server {
    var buffers: map<string, Buffer>

    constructor ()
      ensures buffers == map[]
    {
      buffers := map[];
    }

    method GetBuffer(id: string) returns (b: Buffer?)
      ensures id in buffers ==> b == buffers[id]
      ensures id !in buffers ==> b == null
    {
      b := if id in buffers then buffers[id] else null;
    }

    /** The identifier is drawn at random; it is assumed to be new. */
    method Allocate(id: string) returns (w: LogWriter)
      requires id !in buffers
      modifies this
      ensures fresh(w) && fresh(w.buffer) && w.server == this && w.id == id
      ensures w.buffer.buffer == [] && !w.buffer.closed
      ensures buffers == old(buffers)[id := w.buffer]
    {
      var b := new Buffer();
      w := new LogWriter(b, this, id);
      buffers := buffers[id := b];
    }

    /** A request to the server. After a panic the client has been sent nothing, not even a
        status, for which 0 stands. */
    method ServeHTTP(path: string, isGet: bool, turns: seq<Turn>)
      returns (status: int, out: seq<byte>, end: Served)
      modifies buffers.Values
      ensures buffers == old(buffers)
      ensures end == Panicked <==> path == ""
      ensures end == Panicked <==> status == 0
      ensures status == 404 <==>
                path != "" && (Route(path).NoBuffer? || (Route(path).Names? && Route(path).id !in buffers))
      ensures status == 404 || end == Panicked ==> out == []
      ensures status == 404 ==> end == NotServed
      ensures status != 404 && end != Panicked ==> status == if isGet then 200 else 405
      ensures status != 404 && end != Panicked ==>
                && Route(path).Names? && Route(path).id in buffers
                && var b := buffers[Route(path).id];
                   out <= b.buffer && (end == AtEOF ==> b.closed && out == b.buffer)
                   && (end == ClientGone ==> AnyLeaves(turns)) && (end == ContextEnded ==> AnyTurnCancels(turns))
                   && (end == Waiting ==> (!b.closed && out == b.buffer) || |out| >= |turns|)
                   && (isGet && old(b.closed) && Patient(turns, |b.buffer|) ==> end == AtEOF)
    {
      var route := Route(path);
      if route.OutOfRange? {
        return 0, [], Panicked;
      }
      if route.NoBuffer? {
        return 404, [], NotServed;
      }
      var b := GetBuffer(route.id);
      if b == null {
        return 404, [], NotServed;
      }
      status, out, end := b.ServeHTTP(isGet, turns);
    }
  }

  /** What Allocate hands to the task: its Close also removes the buffer from the server. */
  class LogWriter {
    const buffer: Buffer
    const server: Server
    const id: string

    constructor (b: Buffer, s: Server, name: string)
      ensures buffer == b && server == s && id == name
    {
      buffer, server, id := b, s, name;
    }

    method Close()
      modifies buffer, server
      ensures buffer.closed && buffer.buffer == old(buffer.buffer)
      ensures server.buffers == old(server.buffers) - {id}
    {
      buffer.Close();
      server.buffers := server.buffers - {id};
    }
  }
}
