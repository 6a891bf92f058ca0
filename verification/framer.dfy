/** The per-connection newline framer of `src/socket-server.js`: the data
    handler that splits the growing buffer into complete lines and
    dispatches them, and the end handler that flushes what is left. Chunks
    arrive as already-decoded text. */
module Framer {
  import opened Options
  import opened Text
  import opened JsValues
  import opened Protocol
  import opened Broker

  /** A connection and the text it has received past its last newline. */
  datatype Conn = Conn(sock: Socket, buffer: string)

  /** The buffer plus a chunk, cut into the complete lines and the
      unterminated rest: joined back with newlines they give exactly the
      text received, no line and no rest holds a newline. */
  function Frame(buffer: string, chunk: string): (r: (seq<string>, string))
    ensures JoinLines(r.0 + [r.1]) == buffer + chunk
    ensures NoNewlines(r.0) && '\n' !in r.1
  {
    var parts := Split(buffer + chunk);
    JoinSplit(buffer + chunk);
    assert parts == parts[..|parts| - 1] + [parts[|parts| - 1]];
    (parts[..|parts| - 1], parts[|parts| - 1])
  }

  /** The same reassembly in the form "lines, a newline, then the rest":
      when the chunk completes at least one line, the dispatched lines
      joined with newlines, one more newline and the new buffer are the old
      buffer plus the chunk. */
  lemma FrameReassembles(buffer: string, chunk: string)
    ensures var (lines, rest) := Frame(buffer, chunk);
            && (|lines| == 0 ==> rest == buffer + chunk)
            && (|lines| > 0 ==> JoinLines(lines) + "\n" + rest == buffer + chunk)
  {
    var (lines, rest) := Frame(buffer, chunk);
    if |lines| == 0 {
      assert lines + [rest] == [rest];
    } else {
      JoinAppend(lines, [rest]);
    }
  }

  /** One line through the codec: handled when it parses, skipped when it
      does not. */
  function HandleLine(srv: Server, sock: Socket, line: string, decode: string -> Option<Json>): Step {
    match ParseMessage(line, decode)
    case None => Step(srv, [])
    case Some(msg) => HandleMessage(srv, msg, sock)
  }

  /** Running a line handler over lines in turn, each against the state
      the previous one left, collecting the effects in order. */
  function RunLines(srv: Server, lines: seq<string>, handle: (Server, string) -> Step): Step
    decreases |lines|
  {
    if |lines| == 0 then Step(srv, [])
    else
      var first := handle(srv, lines[0]);
      var rest := RunLines(first.server, lines[1..], handle);
      Step(rest.server, first.effects + rest.effects)
  }

  function LineHandler(sock: Socket, decode: string -> Option<Json>): (Server, string) -> Step {
    (srv: Server, line: string) => HandleLine(srv, sock, line, decode)
  }

  /** The loop of the data handler. */
  function DispatchLines(srv: Server, sock: Socket, lines: seq<string>, decode: string -> Option<Json>): Step {
    RunLines(srv, lines, LineHandler(sock, decode))
  }

  /** The messages a run of lines carries, in order, without the lines the
      codec rejects. */
  function Parsed(lines: seq<string>, decode: string -> Option<Json>): seq<Message> {
    if |lines| == 0 then []
    else
      match ParseMessage(lines[0], decode)
      case None => Parsed(lines[1..], decode)
      case Some(msg) => [msg] + Parsed(lines[1..], decode)
  }

  /** Handling messages one after another. */
  function HandleAll(srv: Server, sock: Socket, msgs: seq<Message>): Step
    decreases |msgs|
  {
    if |msgs| == 0 then Step(srv, [])
    else
      var first := HandleMessage(srv, msgs[0], sock);
      var rest := HandleAll(first.server, sock, msgs[1..]);
      Step(rest.server, first.effects + rest.effects)
  }

  /** Dispatching lines is handling exactly the messages they parse to, in
      arrival order: a rejected line is skipped and leaves the handling of
      the lines after it as if it had never been sent. */
  lemma {:induction false} DispatchHandlesParsedInOrder(srv: Server, sock: Socket, lines: seq<string>, decode: string -> Option<Json>)
    ensures DispatchLines(srv, sock, lines, decode) == HandleAll(srv, sock, Parsed(lines, decode))
    decreases |lines|
  {
    if |lines| > 0 {
      var handle := LineHandler(sock, decode);
      var first := handle(srv, lines[0]);
      assert first == HandleLine(srv, sock, lines[0], decode);
      DispatchHandlesParsedInOrder(first.server, sock, lines[1..], decode);
      var rest := RunLines(first.server, lines[1..], handle);
      assert DispatchLines(srv, sock, lines, decode) == Step(rest.server, first.effects + rest.effects);
      match ParseMessage(lines[0], decode)
      case None =>
        assert first == Step(srv, []);
      case Some(msg) =>
        var msgs := Parsed(lines, decode);
        assert msgs[0] == msg && msgs[1..] == Parsed(lines[1..], decode);
    }
  }

  /** Running two runs of lines is running the first, then the second
      from where the first left off. */
  lemma {:induction false} RunAppend(srv: Server, a: seq<string>, b: seq<string>, handle: (Server, string) -> Step)
    ensures var ra := RunLines(srv, a, handle);
            var rb := RunLines(ra.server, b, handle);
            RunLines(srv, a + b, handle) == Step(rb.server, ra.effects + rb.effects)
    decreases |a|
  {
    if |a| == 0 {
      assert a + b == b;
    } else {
      var first := handle(srv, a[0]);
      RunAppend(first.server, a[1..], b, handle);
      var ra := RunLines(first.server, a[1..], handle);
      var rb := RunLines(ra.server, b, handle);
      assert (a + b)[0] == a[0];
      assert (a + b)[1..] == a[1..] + b;
      assert first.effects + (ra.effects + rb.effects) == (first.effects + ra.effects) + rb.effects;
    }
  }

  /** The data handler: append the chunk, dispatch every complete line in
      order, keep the unterminated rest as the new buffer. */
  function OnData(srv: Server, conn: Conn, chunk: string, decode: string -> Option<Json>): (r: (Step, Conn))
    ensures r.1.sock == conn.sock
    ensures '\n' !in r.1.buffer
    ensures r.0 == DispatchLines(srv, conn.sock, Frame(conn.buffer, chunk).0, decode)
    ensures r.1.buffer == Frame(conn.buffer, chunk).1
    ensures '\n' !in chunk && '\n' !in conn.buffer ==>
              r == (Step(srv, []), Conn(conn.sock, conn.buffer + chunk))
  {
    var (lines, rest) := Frame(conn.buffer, chunk);
    FrameWithoutNewline(conn.buffer, chunk);
    (DispatchLines(srv, conn.sock, lines, decode), Conn(conn.sock, rest))
  }

  /** Text without a newline completes no line and is buffered whole. */
  lemma FrameWithoutNewline(buffer: string, chunk: string)
    ensures '\n' !in chunk && '\n' !in buffer ==> Frame(buffer, chunk) == ([], buffer + chunk)
  {
    if '\n' !in chunk && '\n' !in buffer {
      assert '\n' !in buffer + chunk;
      SplitSingle(buffer + chunk);
    }
  }

  /** How bytes are cut into chunks does not matter: delivering `a` and
      then `b` dispatches the same messages in the same order, and leaves
      the same buffer, as delivering `a + b` at once. */
  lemma {:induction false} ChunkingIsInvisible(srv: Server, conn: Conn, a: string, b: string, decode: string -> Option<Json>)
    ensures var (s1, c1) := OnData(srv, conn, a, decode);
            var (s2, c2) := OnData(s1.server, c1, b, decode);
            OnData(srv, conn, a + b, decode) == (Step(s2.server, s1.effects + s2.effects), c2)
  {
    var (l1, r1) := Frame(conn.buffer, a);
    var (l2, r2) := Frame(r1, b);
    FrameTwice(conn.buffer, a, b);
    RunAppend(srv, l1, l2, LineHandler(conn.sock, decode));
  }

  /** Framing a + b at once yields the lines of framing a, then the lines
      of framing b onto what a left, and the same rest. */
  lemma FrameTwice(buffer: string, a: string, b: string)
    ensures var (l1, r1) := Frame(buffer, a);
            var (l2, r2) := Frame(r1, b);
            Frame(buffer, a + b) == (l1 + l2, r2)
  {
    var (l1, r1) := Frame(buffer, a);
    var (l2, r2) := Frame(r1, b);
    var all := buffer + (a + b);
    calc {
      all;
      JoinLines(l1 + [r1]) + b;
      { JoinExtendLast(l1, r1, b); }
      JoinLines(l1 + [r1 + b]);
      { JoinNested(l1, l2 + [r2]); }
      JoinLines(l1 + (l2 + [r2]));
    }
    assert l1 + (l2 + [r2]) == (l1 + l2) + [r2];
    assert NoNewlines((l1 + l2) + [r2]);
    SplitJoin((l1 + l2) + [r2]);
    var parts := Split(all);
    assert parts == (l1 + l2) + [r2];
  }

  /** Joining pieces whose last piece is itself a join flattens. */
  lemma JoinNested(x: seq<string>, y: seq<string>)
    requires |y| >= 1
    ensures JoinLines(x + [JoinLines(y)]) == JoinLines(x + y)
  {
    if |x| == 0 {
      assert x + [JoinLines(y)] == [JoinLines(y)];
      assert x + y == y;
    } else {
      JoinAppend(x, [JoinLines(y)]);
      JoinAppend(x, y);
    }
  }

  /** The end handler: a buffer that is not blank after trimming is parsed
      and, if it is a message, dispatched, and the buffer is cleared; a
      blank buffer is left as it is and nothing happens. Either way what
      remains is blank. */
  function OnEnd(srv: Server, conn: Conn, decode: string -> Option<Json>): (r: (Step, Conn))
    ensures r.1.sock == conn.sock
    ensures JsTrim(r.1.buffer) == []
    ensures JsTrim(conn.buffer) == [] ==> r == (Step(srv, []), conn)
    ensures JsTrim(conn.buffer) != [] ==>
              && r.1.buffer == []
              && r.0 == HandleLine(srv, conn.sock, conn.buffer, decode)
  {
    if JsTrim(conn.buffer) != [] then
      (HandleLine(srv, conn.sock, conn.buffer, decode), Conn(conn.sock, []))
    else
      (Step(srv, []), conn)
  }

  /** The residue is dispatched at most once: a second end finds nothing
      to flush. */
  lemma EndFlushesOnce(srv: Server, conn: Conn, decode: string -> Option<Json>)
    ensures var (s1, c1) := OnEnd(srv, conn, decode);
            OnEnd(s1.server, c1, decode) == (Step(s1.server, []), c1)
  {
  }
}
