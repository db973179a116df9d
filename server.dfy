/** The WebSocket server (server/src/server.rs): the accept loop, and for
    each connection a reader loop that answers every frame with one reply
    on an outbound queue and a writer that drains that queue to the
    socket. The socket is a finite list of read outcomes; the writer runs
    after the reader, which yields the same written order as the two
    threads of the source, because the queue is first in, first out. */
module Server {
  import opened Wrappers
  import opened Geometry
  import opened Calibration
  import Protocol
  import opened Channel
  import opened ImgProc
  import opened Cameras
  import opened Scanner
  import opened Gpio
  import ServerMotor

  /** A WebSocket message as the reader receives it; `OtherFrame` stands
      for ping, pong and raw frames. */
  datatype Frame = TextFrame(text: string) | BinaryFrame(data: seq<int>) | CloseFrame | OtherFrame

  /** One `read` on the socket. */
  datatype ReadResult = Received(frame: Frame) | ConnectionClosed | ReadError(message: string)

  /** What the JSON decoder makes of a text frame. */
  datatype Parse = Parsed(command: Protocol.Command) | ParseError(message: string)

  /** The parts of the scanner a connection inputs but never changes. */
  datatype ScannerEnv = ScannerEnv(paths: seq<Path>, decode: Path -> GrayImage, calib: Calibration, trig: Trig,
                                   lasers: Protocol.LasersData, kind: ServerMotor.MotorKind)

  /** The parts of the scanner commands change: the camera cursor, the
      motor position `status` counts, and the pins the motor wrote. */
  datatype ScannerState = ScannerState(cursor: nat, position: real, trace: seq<Pattern>)

  predicate Fits(env: ScannerEnv, st: ScannerState) {
    st.cursor <= |env.paths| && ValidCalibration(env.calib)
  }

  function EnvOf(scanner: Scanner): ScannerEnv
    reads scanner, scanner.camera, scanner.motor
  {
    ScannerEnv(scanner.camera.paths, scanner.camera.decode, scanner.calibration, scanner.trig,
               Protocol.LasersData(scanner.laser1, scanner.laser2), scanner.motor.kind)
  }

  function StateOf(scanner: Scanner): ScannerState
    reads scanner, scanner.camera, scanner.motor
  {
    ScannerState(scanner.camera.cursor, scanner.motorPosition, scanner.motor.trace)
  }

  /** Every response in the run is a point-cloud chunk. */
  predicate AllChunks(rs: seq<Protocol.Response>) {
    forall i :: 0 <= i < |rs| ==> rs[i].PointCloud?
  }

  /** The effect of answering one frame: the chunks pushed while doing it,
      the reply, and the scanner state afterwards. */
  datatype Dispatch = Dispatch(chunks: seq<Protocol.Response>, reply: Protocol.Response, next: ScannerState)

  /** `process_message` and `replay`, as a function of the scanner state:
      `Status` reports the incremented motor position; `Replay` runs one
      scan into the queue and replies `Ok`, or turns its error into an
      error reply. */
  function CommandDispatch(command: Protocol.Command, env: ScannerEnv, st: ScannerState, alive: bool): (d: Dispatch)
    requires Fits(env, st)
    ensures Fits(env, d.next)
    ensures AllChunks(d.chunks) && !d.reply.PointCloud?
    ensures command.Replay? ==> (d.reply == Protocol.Ok <==> alive && |env.paths| - st.cursor >= 72)
    ensures command.Status? ==> d.chunks == [] && d.next.cursor == st.cursor
  {
    AcquireSucceeds(env.paths, st.cursor, env.decode, env.calib, env.trig, alive);
    match command
    case Status =>
      Dispatch([], Protocol.Response.Status(Protocol.StatusData(env.lasers, st.position + 1.0)), st.(position := st.position + 1.0))
    case Replay =>
      var out := Acquire(env.paths, st.cursor, env.decode, env.calib, env.trig, alive);
      AcquireBounds(env.paths, st.cursor, env.decode, env.calib, env.trig, alive);
      var reply := if out.result.Ok? then Protocol.Ok
                   else Protocol.Error("Error processing command " + Protocol.CommandName(command) + ": " + ErrorText(out.result.error));
      var trace := if env.kind.Nema? then st.trace + ServerMotor.Repeat(ServerMotor.StepTrace(1), out.used) else st.trace;
      Dispatch(out.chunks, reply, ScannerState(st.cursor + out.used, st.position, trace))
  }

  /** The reply to one frame (the `match message` of the reader loop). */
  function FrameDispatch(frame: Frame, parse: string -> Parse, env: ScannerEnv, st: ScannerState, alive: bool): (d: Dispatch)
    requires Fits(env, st)
    ensures Fits(env, d.next)
    ensures AllChunks(d.chunks) && !d.reply.PointCloud?
    ensures !(frame.TextFrame? && parse(frame.text).Parsed?) ==> d.chunks == [] && d.next == st
  {
    match frame
    case CloseFrame => Dispatch([], Protocol.Close, st)
    case TextFrame(text) =>
      (match parse(text)
       case Parsed(command) => CommandDispatch(command, env, st, alive)
       case ParseError(e) => Dispatch([], Protocol.Error("Invalid command: " + e), st))
    case BinaryFrame(_) => Dispatch([], Protocol.Error("Binary messages are not supported"), st)
    case OtherFrame => Dispatch([], Protocol.Error("Unsupported message type"), st)
  }

  /** What a connection does: the responses it queues, in order, the
      scanner state it leaves, and how many read outcomes it consumes. */
  datatype SessionOutcome = SessionOutcome(sent: seq<Protocol.Response>, final: ScannerState, consumed: nat)

  /** The reader loop as a function of the remaining read outcomes: a
      failed read or a closed connection ends it; a frame is answered,
      and the loop goes on unless the reply cannot be queued. */
  function Session(inputs: seq<ReadResult>, parse: string -> Parse, env: ScannerEnv, st: ScannerState, alive: bool): (out: SessionOutcome)
    requires Fits(env, st)
    ensures Fits(env, out.final)
    ensures out.consumed <= |inputs|
    ensures inputs != [] ==> out.consumed >= 1
    ensures !alive ==> out.sent == [] && out.consumed <= 1
    decreases |inputs|
  {
    if inputs == [] then SessionOutcome([], st, 0)
    else match inputs[0]
      case Received(frame) =>
        var d := FrameDispatch(frame, parse, env, st, alive);
        if !alive then SessionOutcome([], d.next, 1)
        else
          var rest := Session(inputs[1..], parse, env, d.next, alive);
          SessionOutcome(d.chunks + [d.reply] + rest.sent, rest.final, 1 + rest.consumed)
      case _ => SessionOutcome([], st, 1)
  }

  /** The number of replies in a run of responses: everything but the
      point-cloud chunks. */
  function Replies(rs: seq<Protocol.Response>): (n: nat)
    ensures n <= |rs|
    ensures AllChunks(rs) ==> n == 0
  {
    if rs == [] then 0 else (if rs[0].PointCloud? then 0 else 1) + Replies(rs[1..])
  }

  lemma {:induction false} RepliesAppend(a: seq<Protocol.Response>, b: seq<Protocol.Response>)
    ensures Replies(a + b) == Replies(a) + Replies(b)
    decreases |a|
  {
    if a == [] {
      assert a + b == b;
    } else {
      assert (a + b)[0] == a[0] && (a + b)[1..] == a[1..] + b;
      RepliesAppend(a[1..], b);
    }
  }

  /** How many frames arrive before the first failed read or close of the
      connection. */
  function LeadingFrames(inputs: seq<ReadResult>): (n: nat)
    ensures n <= |inputs|
  {
    if inputs == [] || !inputs[0].Received? then 0 else 1 + LeadingFrames(inputs[1..])
  }

  /** With a live queue, every frame gets exactly one reply, whatever its
      kind (a Close frame or an erroneous command included), and only a
      failed read or a closed connection ends the loop: it consumes all
      the frames before the first of those, plus that one. */
  lemma {:induction false} OneReplyPerFrame(inputs: seq<ReadResult>, parse: string -> Parse, env: ScannerEnv, st: ScannerState)
    requires Fits(env, st)
    ensures var out := Session(inputs, parse, env, st, true);
            && Replies(out.sent) == LeadingFrames(inputs)
            && out.consumed == (if LeadingFrames(inputs) < |inputs| then LeadingFrames(inputs) + 1 else |inputs|)
    decreases |inputs|
  {
    if inputs != [] && inputs[0].Received? {
      var d := FrameDispatch(inputs[0].frame, parse, env, st, true);
      var rest := Session(inputs[1..], parse, env, d.next, true);
      OneReplyPerFrame(inputs[1..], parse, env, d.next);
      RepliesAppend(d.chunks, [d.reply]);
      RepliesAppend(d.chunks + [d.reply], rest.sent);
      assert Replies([d.reply]) == 1 by {
        assert [d.reply][1..] == [];
      }
    }
  }

  /** Once the connection has failed or closed, nothing after it is read:
      the read outcomes that follow change nothing. */
  lemma {:induction false} NothingReadAfterEnd(inputs: seq<ReadResult>, later: seq<ReadResult>, parse: string -> Parse,
                                               env: ScannerEnv, st: ScannerState, alive: bool)
    requires Fits(env, st)
    requires LeadingFrames(inputs) < |inputs|
    ensures Session(inputs + later, parse, env, st, alive) == Session(inputs, parse, env, st, alive)
    decreases |inputs|
  {
    assert (inputs + later)[0] == inputs[0];
    if inputs[0].Received? {
      assert (inputs + later)[1..] == inputs[1..] + later;
      var d := FrameDispatch(inputs[0].frame, parse, env, st, alive);
      NothingReadAfterEnd(inputs[1..], later, parse, env, d.next, alive);
    }
  }

  /** `process_message`, with `replay` inlined by `Scanner.Start`. */
  method ProcessMessage(command: Protocol.Command, scanner: Scanner, queue: Channel<Protocol.Response>)
    returns (response: Protocol.Response)
    requires scanner.Valid()
    modifies scanner, scanner.camera, scanner.motor, queue
    ensures scanner.Valid()
    ensures EnvOf(scanner) == old(EnvOf(scanner))
    ensures var d := CommandDispatch(command, old(EnvOf(scanner)), old(StateOf(scanner)), old(queue.receiverAlive));
            && response == d.reply
            && StateOf(scanner) == d.next
            && queue.queue == old(queue.queue) + d.chunks
            && queue.receiverAlive == old(queue.receiverAlive)
  {
    match command
    case Status =>
      var status := scanner.Status();
      response := Protocol.Response.Status(status);
    case Replay =>
      var started := Replay(scanner, queue);
      response := match started
                  case Ok(r) => r
                  case Err(e) => Protocol.Error("Error processing command " + Protocol.CommandName(command) + ": " + ErrorText(e));
  }

  /** `replay`: start a scan and answer `Ok` once it has succeeded. */
  method Replay(scanner: Scanner, queue: Channel<Protocol.Response>) returns (r: Result<Protocol.Response, ScanError>)
    requires scanner.Valid()
    modifies scanner.camera, scanner.motor, queue
    ensures scanner.Valid()
    ensures var out := Acquire(scanner.camera.paths, old(scanner.camera.cursor), scanner.camera.decode,
                               scanner.calibration, scanner.trig, old(queue.receiverAlive));
            && (out.result.Ok? ==> r == Result.Ok(Protocol.Ok))
            && (out.result.Err? ==> r == Err(out.result.error))
            && scanner.camera.cursor == old(scanner.camera.cursor) + out.used
            && queue.queue == old(queue.queue) + out.chunks
            && queue.receiverAlive == old(queue.receiverAlive)
            && (scanner.motor.kind == ServerMotor.Nema ==>
                  scanner.motor.trace == old(scanner.motor.trace) + ServerMotor.Repeat(ServerMotor.StepTrace(1), out.used))
            && (scanner.motor.kind == ServerMotor.Mock ==> scanner.motor.trace == old(scanner.motor.trace))
  {
    var started := scanner.Start(queue);
    if started.Err? {
      return Err(started.error);
    }
    return Result.Ok(Protocol.Ok);
  }

  /** The body of the reader loop for one received frame: the reply it
      computes, with any chunks a scan pushed first. */
  method Respond(frame: Frame, parse: string -> Parse, scanner: Scanner, queue: Channel<Protocol.Response>)
    returns (response: Protocol.Response)
    requires scanner.Valid()
    modifies scanner, scanner.camera, scanner.motor, queue
    ensures scanner.Valid()
    ensures EnvOf(scanner) == old(EnvOf(scanner))
    ensures var d := FrameDispatch(frame, parse, old(EnvOf(scanner)), old(StateOf(scanner)), old(queue.receiverAlive));
            && response == d.reply
            && StateOf(scanner) == d.next
            && queue.queue == old(queue.queue) + d.chunks
            && queue.receiverAlive == old(queue.receiverAlive)
  {
    match frame
    case CloseFrame =>
      response := Protocol.Close;
    case TextFrame(text) =>
      match parse(text) {
        case Parsed(command) =>
          response := ProcessMessage(command, scanner, queue);
        case ParseError(e) =>
          response := Protocol.Error("Invalid command: " + e);
      }
    case BinaryFrame(_) =>
      response := Protocol.Error("Binary messages are not supported");
    case OtherFrame =>
      response := Protocol.Error("Unsupported message type");
  }

  /** One turn of the reader loop: answer one read outcome and queue the
      reply. `more` says whether the loop goes on; the session over the
      outcomes that follow then accounts for the rest. */
  method ReadOne(input: ReadResult, later: seq<ReadResult>, parse: string -> Parse, scanner: Scanner,
                 queue: Channel<Protocol.Response>) returns (more: bool)
    requires scanner.Valid()
    modifies scanner, scanner.camera, scanner.motor, queue
    ensures scanner.Valid()
    ensures EnvOf(scanner) == old(EnvOf(scanner))
    ensures queue.receiverAlive == old(queue.receiverAlive)
    ensures more ==> queue.receiverAlive
    ensures var whole := Session([input] + later, parse, old(EnvOf(scanner)), old(StateOf(scanner)), old(queue.receiverAlive));
            var rest := Session(later, parse, EnvOf(scanner), StateOf(scanner), queue.receiverAlive);
            if more then
              && old(queue.queue) + whole.sent == queue.queue + rest.sent
              && whole.final == rest.final
              && whole.consumed == 1 + rest.consumed
            else
              && queue.queue == old(queue.queue) + whole.sent
              && StateOf(scanner) == whole.final
              && whole.consumed == 1
  {
    assert ([input] + later)[0] == input && ([input] + later)[1..] == later;
    if !input.Received? {
      return false;
    }
    var response := Respond(input.frame, parse, scanner, queue);
    more := queue.Send(response);
  }

  /** The reader loop of `handle_connection`: read, answer, queue the
      reply; stop on a read failure, a closed connection or a queue with
      no receiver, or when the given read outcomes run out. */
  method HandleConnection(inputs: seq<ReadResult>, parse: string -> Parse, scanner: Scanner,
                          queue: Channel<Protocol.Response>) returns (consumed: nat)
    requires scanner.Valid()
    modifies scanner, scanner.camera, scanner.motor, queue
    ensures scanner.Valid()
    ensures EnvOf(scanner) == old(EnvOf(scanner))
    ensures var out := Session(inputs, parse, old(EnvOf(scanner)), old(StateOf(scanner)), old(queue.receiverAlive));
            && queue.queue == old(queue.queue) + out.sent
            && StateOf(scanner) == out.final
            && consumed == out.consumed
            && queue.receiverAlive == old(queue.receiverAlive)
  {
    ghost var env := EnvOf(scanner);
    ghost var alive := queue.receiverAlive;
    ghost var total := Session(inputs, parse, env, StateOf(scanner), alive);
    var i := 0;
    while i < |inputs|
      invariant 0 <= i <= |inputs|
      invariant scanner.Valid()
      invariant EnvOf(scanner) == env
      invariant queue.receiverAlive == alive
      invariant var rest := Session(inputs[i..], parse, env, StateOf(scanner), alive);
                && old(queue.queue) + total.sent == queue.queue + rest.sent
                && total.final == rest.final
                && total.consumed == i + rest.consumed
    {
      assert inputs[i..] == [inputs[i]] + inputs[i + 1..];
      var more := ReadOne(inputs[i], inputs[i + 1..], parse, scanner, queue);
      if !more {
        return i + 1;
      }
      i := i + 1;
    }
    assert inputs[i..] == [];
    return i;
  }

  /** The text frames the writer produces from a run of queued responses:
      those that serialise, in queue order; the others are skipped. */
  function Encoded(msgs: seq<Protocol.Response>, encode: Protocol.Response -> Option<string>): (r: seq<string>)
    ensures |r| <= |msgs|
  {
    if msgs == [] then []
    else (if encode(msgs[0]).Some? then [encode(msgs[0]).value] else []) + Encoded(msgs[1..], encode)
  }

  /** The writer thread: take every queued response, oldest first,
      serialise it and write it; a serialisation failure skips the
      response, a write failure is only logged. The result lists the
      frames written, in order. */
  method DrainQueue(queue: Channel<Protocol.Response>, encode: Protocol.Response -> Option<string>)
    returns (written: seq<string>)
    modifies queue
    ensures queue.queue == [] && queue.receiverAlive == old(queue.receiverAlive)
    ensures written == Encoded(old(queue.queue), encode)
  {
    written := [];
    while true
      invariant queue.receiverAlive == old(queue.receiverAlive)
      invariant written + Encoded(queue.queue, encode) == Encoded(old(queue.queue), encode)
      decreases |queue.queue|
    {
      ghost var before := queue.queue;
      var msg := queue.TryRecv();
      if msg.None? {
        return;
      }
      match encode(msg.value)
      case Some(text) =>
        written := written + [text];
      case None =>
    }
  }

  /** Writing is order-preserving: the frames for two runs of responses
      are the frames for the first run followed by those of the second. */
  lemma {:induction false} EncodedAppend(a: seq<Protocol.Response>, b: seq<Protocol.Response>,
                                         encode: Protocol.Response -> Option<string>)
    ensures Encoded(a + b, encode) == Encoded(a, encode) + Encoded(b, encode)
    decreases |a|
  {
    if a != [] {
      assert (a + b)[0] == a[0] && (a + b)[1..] == a[1..] + b;
      EncodedAppend(a[1..], b, encode);
    } else {
      assert a + b == b;
    }
  }

  /** When every response serialises, the writer sends all of them, one
      frame each, in queue order. */
  lemma {:induction false} EncodedAll(msgs: seq<Protocol.Response>, encode: Protocol.Response -> Option<string>)
    requires forall i :: 0 <= i < |msgs| ==> encode(msgs[i]).Some?
    ensures |Encoded(msgs, encode)| == |msgs|
    ensures forall i :: 0 <= i < |msgs| ==> Encoded(msgs, encode)[i] == encode(msgs[i]).value
    decreases |msgs|
  {
    if msgs != [] {
      EncodedAll(msgs[1..], encode);
    }
  }

  /** A connection attempt of the listener. */
  datatype Incoming = AcceptFailed | PeerAddrFailed | HandshakeFailed | Connected(inputs: seq<ReadResult>)

  /** What the server does over a run of connection attempts: the frames
      written on each connection served, and the scanner state left. */
  datatype ServeOutcome = ServeOutcome(transcripts: seq<seq<string>>, final: ScannerState)

  /** The accept loop as a function: failed attempts are skipped; each
      connection is served to its end, with a new queue, before the next
      one is accepted. */
  function Serve(incoming: seq<Incoming>, parse: string -> Parse, encode: Protocol.Response -> Option<string>,
                 env: ScannerEnv, st: ScannerState): (out: ServeOutcome)
    requires Fits(env, st)
    ensures Fits(env, out.final)
    decreases |incoming|
  {
    if incoming == [] then ServeOutcome([], st)
    else match incoming[0]
      case Connected(inputs) =>
        var session := Session(inputs, parse, env, st, true);
        var rest := Serve(incoming[1..], parse, encode, env, session.final);
        ServeOutcome([Encoded(session.sent, encode)] + rest.transcripts, rest.final)
      case _ => Serve(incoming[1..], parse, encode, env, st)
  }

  /** One accepted connection: a new queue, the reader loop, then the
      writer draining what the reader queued. */
  method ServeConnection(inputs: seq<ReadResult>, parse: string -> Parse, encode: Protocol.Response -> Option<string>,
                         scanner: Scanner) returns (written: seq<string>)
    requires scanner.Valid()
    modifies scanner, scanner.camera, scanner.motor
    ensures scanner.Valid()
    ensures EnvOf(scanner) == old(EnvOf(scanner))
    ensures var out := Session(inputs, parse, old(EnvOf(scanner)), old(StateOf(scanner)), true);
            written == Encoded(out.sent, encode) && StateOf(scanner) == out.final
  {
    ghost var out := Session(inputs, parse, EnvOf(scanner), StateOf(scanner), true);
    var queue := new Channel<Protocol.Response>();
    var _ := HandleConnection(inputs, parse, scanner, queue);
    assert queue.queue == [] + out.sent == out.sent;
    written := DrainQueue(queue, encode);
  }

  function ConnectedCount(incoming: seq<Incoming>): (n: nat)
    ensures n <= |incoming|
  {
    if incoming == [] then 0 else (if incoming[0].Connected? then 1 else 0) + ConnectedCount(incoming[1..])
  }

  /** The listener never stops on a failed attempt: every connection that
      gets through the accept, the peer lookup and the handshake is served
      (`ServedInOrder` says in which order). */
  lemma {:induction false} EveryConnectionServed(incoming: seq<Incoming>, parse: string -> Parse,
                                                 encode: Protocol.Response -> Option<string>, env: ScannerEnv, st: ScannerState)
    requires Fits(env, st)
    ensures |Serve(incoming, parse, encode, env, st).transcripts| == ConnectedCount(incoming)
    decreases |incoming|
  {
    if incoming != [] {
      if incoming[0].Connected? {
        var session := Session(incoming[0].inputs, parse, env, st, true);
        EveryConnectionServed(incoming[1..], parse, encode, env, session.final);
      } else {
        EveryConnectionServed(incoming[1..], parse, encode, env, st);
      }
    }
  }

  /** The read outcomes of the attempts that got through, in arrival
      order. */
  function Connections(incoming: seq<Incoming>): (conns: seq<seq<ReadResult>>)
    ensures |conns| == ConnectedCount(incoming)
  {
    if incoming == [] then []
    else (if incoming[0].Connected? then [incoming[0].inputs] else []) + Connections(incoming[1..])
  }

  /** The scanner state after serving a run of connections one after the
      other, each from the state the previous one left. */
  function StateAfter(conns: seq<seq<ReadResult>>, parse: string -> Parse, env: ScannerEnv, st: ScannerState): (s: ScannerState)
    requires Fits(env, st)
    ensures Fits(env, s)
    decreases |conns|
  {
    if conns == [] then st
    else StateAfter(conns[1..], parse, env, Session(conns[0], parse, env, st, true).final)
  }

  /** Connections are served one at a time, in arrival order: the j-th
      transcript is what the j-th connection's session queues, started
      from the state the earlier connections left, and failed attempts
      change nothing. */
  lemma {:induction false} ServedInOrder(incoming: seq<Incoming>, parse: string -> Parse,
                                         encode: Protocol.Response -> Option<string>, env: ScannerEnv, st: ScannerState, j: nat)
    requires Fits(env, st)
    requires j < ConnectedCount(incoming)
    ensures var conns := Connections(incoming);
            var out := Serve(incoming, parse, encode, env, st);
            && |out.transcripts| == |conns|
            && out.transcripts[j]
               == Encoded(Session(conns[j], parse, env, StateAfter(conns[..j], parse, env, st), true).sent, encode)
    decreases |incoming|
  {
    EveryConnectionServed(incoming, parse, encode, env, st);
    var conns := Connections(incoming);
    var rest := Connections(incoming[1..]);
    if incoming[0].Connected? {
      var session := Session(incoming[0].inputs, parse, env, st, true);
      assert conns == [incoming[0].inputs] + rest;
      if j > 0 {
        ServedInOrder(incoming[1..], parse, encode, env, session.final, j - 1);
        assert conns[j] == rest[j - 1];
        assert conns[..j][0] == incoming[0].inputs && conns[..j][1..] == rest[..j - 1];
      } else {
        assert conns[..j] == [];
      }
    } else {
      assert conns == rest;
      ServedInOrder(incoming[1..], parse, encode, env, st, j);
    }
  }

  /** The state the accept loop leaves is that of serving every connection
      that got through, in arrival order. */
  lemma {:induction false} ServeFinalState(incoming: seq<Incoming>, parse: string -> Parse,
                                           encode: Protocol.Response -> Option<string>, env: ScannerEnv, st: ScannerState)
    requires Fits(env, st)
    ensures Serve(incoming, parse, encode, env, st).final == StateAfter(Connections(incoming), parse, env, st)
    decreases |incoming|
  {
    if incoming != [] {
      var conns := Connections(incoming);
      var rest := Connections(incoming[1..]);
      if incoming[0].Connected? {
        var session := Session(incoming[0].inputs, parse, env, st, true);
        ServeFinalState(incoming[1..], parse, encode, env, session.final);
        assert conns == [incoming[0].inputs] + rest;
        assert conns[0] == incoming[0].inputs && conns[1..] == rest;
      } else {
        ServeFinalState(incoming[1..], parse, encode, env, st);
        assert conns == rest;
      }
    }
  }

  /** `run_websocket_server`, over a finite run of connection attempts. */
  method RunWebsocketServer(incoming: seq<Incoming>, parse: string -> Parse, encode: Protocol.Response -> Option<string>,
                            scanner: Scanner) returns (transcripts: seq<seq<string>>)
    requires scanner.Valid()
    modifies scanner, scanner.camera, scanner.motor
    ensures scanner.Valid()
    ensures EnvOf(scanner) == old(EnvOf(scanner))
    ensures var out := Serve(incoming, parse, encode, old(EnvOf(scanner)), old(StateOf(scanner)));
            transcripts == out.transcripts && StateOf(scanner) == out.final
  {
    ghost var env := EnvOf(scanner);
    ghost var total := Serve(incoming, parse, encode, env, StateOf(scanner));
    transcripts := [];
    var i := 0;
    while i < |incoming|
      invariant 0 <= i <= |incoming|
      invariant scanner.Valid()
      invariant EnvOf(scanner) == env
      invariant var rest := Serve(incoming[i..], parse, encode, env, StateOf(scanner));
                total.transcripts == transcripts + rest.transcripts && total.final == rest.final
    {
      assert incoming[i..][0] == incoming[i] && incoming[i..][1..] == incoming[i + 1..];
      if incoming[i].Connected? {
        var written := ServeConnection(incoming[i].inputs, parse, encode, scanner);
        transcripts := transcripts + [written];
      }
      i := i + 1;
    }
  }
}
