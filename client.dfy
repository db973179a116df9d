/** The web client's text framing (client/src/app.rs): a message is
    "<command>;<payload>", with the payload in JSON, whose encoding is not
    part of this model. */
module Client {
  import opened Wrappers
  import opened Channel

  datatype MotorData = MotorData(speed: real)
  datatype LasersData = LasersData(laser1: bool, laser2: bool)
  datatype ClientStatus = ClientStatus(lasers: LasersData, motor: real)

  datatype MessageOut = StatusRequest | Motor(motor: MotorData) | Lasers(lasers: LasersData)
  datatype MessageIn = StatusMessage(status: ClientStatus)

  /** The JSON encoders and decoder the framing calls; each may fail. */
  datatype Codec = Codec(encodeMotor: MotorData -> Option<string>,
                         encodeLasers: LasersData -> Option<string>,
                         decodeStatus: string -> Option<ClientStatus>)

  /** What a call can end in besides its value: an error returned to the
      caller, or a panic (an `unwrap` on a failure, an index past the
      end). */
  datatype Outcome<T> = Done(value: T) | Failed(message: string) | Panicked

  const Separator: char := ';'

  /** The command word of an outgoing message. */
  function CommandWord(m: MessageOut): (w: string)
    ensures Separator !in w
    ensures m.StatusRequest? <==> w == "status"
  {
    match m
    case StatusRequest => "status"
    case Motor(_) => "motor"
    case Lasers(_) => "lasers"
  }

  /** The payload of an outgoing message; a status request always carries
      "{}". */
  function Payload(m: MessageOut, codec: Codec): Option<string> {
    match m
    case StatusRequest => Some("{}")
    case Motor(data) => codec.encodeMotor(data)
    case Lasers(data) => codec.encodeLasers(data)
  }

  /** The text `send_message` writes, or the serialisation error it
      returns. */
  function FormatFrame(m: MessageOut, codec: Codec): (r: Option<string>)
    ensures r.Some? <==> Payload(m, codec).Some?
    ensures m.StatusRequest? ==> r == Some("status;{}")
  {
    match Payload(m, codec)
    case None => None
    case Some(payload) =>
      assert m.StatusRequest? ==> CommandWord(m) + [Separator] + payload == "status;{}";
      Some(CommandWord(m) + [Separator] + payload)
  }

  /** `str::split` on one character: the pieces between separators, in
      order, empty ones included; never an empty list. */
  function Split(s: string, sep: char): (parts: seq<string>)
    ensures |parts| >= 1
    ensures forall i :: 0 <= i < |parts| ==> sep !in parts[i]
  {
    if s == [] then [""]
    else if s[0] == sep then [""] + Split(s[1..], sep)
    else
      var rest := Split(s[1..], sep);
      [[s[0]] + rest[0]] + rest[1..]
  }

  /** Joining the pieces with the separator gives back the text. */
  function Join(parts: seq<string>, sep: char): string
    requires |parts| >= 1
  {
    if |parts| == 1 then parts[0] else parts[0] + [sep] + Join(parts[1..], sep)
  }

  lemma {:induction false} SplitJoin(s: string, sep: char)
    ensures Join(Split(s, sep), sep) == s
  {
    if s != [] {
      SplitJoin(s[1..], sep);
      var rest := Split(s[1..], sep);
      if s[0] == sep {
        assert Split(s, sep)[1..] == rest;
      } else {
        assert Split(s, sep)[1..] == rest[1..];
        if |rest| > 1 {
          assert Join(rest, sep) == rest[0] + [sep] + Join(rest[1..], sep);
        }
      }
    }
  }

  /** A text with no separator is one piece. */
  lemma {:induction false} SplitWhole(s: string, sep: char)
    requires sep !in s
    ensures Split(s, sep) == [s]
  {
    if s != [] {
      SplitWhole(s[1..], sep);
      assert [s[0]] + s[1..] == s;
    }
  }

  /** The two fields of a frame: with no separator in the command, the
      first piece is the command and the second is the payload up to its
      own first separator, if any. */
  lemma {:induction false} SplitFrame(cmd: string, payload: string, sep: char)
    requires sep !in cmd
    ensures var parts := Split(cmd + [sep] + payload, sep);
            && |parts| >= 2
            && parts[0] == cmd
            && parts[1] == Split(payload, sep)[0]
  {
    if cmd == [] {
      assert cmd + [sep] + payload == [sep] + payload;
      assert ([sep] + payload)[1..] == payload;
    } else {
      SplitFrame(cmd[1..], payload, sep);
      assert (cmd + [sep] + payload)[1..] == cmd[1..] + [sep] + payload;
      assert [cmd[0]] + cmd[1..] == cmd;
    }
  }

  /** The first piece is the text itself exactly when the text has no
      separator; otherwise it is a proper prefix. */
  lemma {:induction false} FirstPiece(s: string, sep: char)
    ensures Split(s, sep)[0] <= s
    ensures Split(s, sep)[0] == s <==> sep !in s
  {
    if sep !in s {
      SplitWhole(s, sep);
    } else if s[0] != sep {
      FirstPiece(s[1..], sep);
    }
  }

  /** What `try_receive_message` makes of one received text: split at
      ';', take field 0 as the command and field 1 as the payload (a
      panic when there is no field 1); only "status" is understood, and
      its payload must decode (a panic otherwise). */
  function DecodeFrame(msg: string, codec: Codec): (r: Outcome<MessageIn>)
    ensures Separator !in msg ==> r.Panicked?
    ensures r.Failed? ==> r.message == "Unknown command"
  {
    var parts := Split(msg, Separator);
    assert Separator !in msg ==> |parts| == 1 by {
      if Separator !in msg {
        SplitWhole(msg, Separator);
      }
    }
    if |parts| < 2 then Panicked
    else if parts[0] != "status" then Failed("Unknown command")
    else match codec.decodeStatus(parts[1])
      case Some(status) => Done(StatusMessage(status))
      case None => Panicked
  }

  /** Any text holding a ';' has two fields; it is refused with "Unknown
      command" exactly when field 0 is not "status", and a status text is
      decoded from field 1 (a panic when that does not decode), whatever
      else follows. */
  lemma DecodeFrameFields(msg: string, codec: Codec)
    requires Separator in msg
    ensures |Split(msg, Separator)| >= 2
    ensures DecodeFrame(msg, codec).Failed? <==> Split(msg, Separator)[0] != "status"
    ensures Split(msg, Separator)[0] == "status" ==>
              DecodeFrame(msg, codec)
              == match codec.decodeStatus(Split(msg, Separator)[1])
                 case Some(status) => Done(StatusMessage(status))
                 case None => Panicked
  {
    SplitJoin(msg, Separator);
  }

  /** Framing round-trips exactly for payloads with no ';': a status
      frame is decoded from its own payload, a longer payload is cut at its
      first ';', and any other command word is refused. */
  lemma FrameRoundTrip(cmd: string, payload: string, codec: Codec)
    requires Separator !in cmd
    ensures Separator !in payload ==>
              DecodeFrame(cmd + [Separator] + payload, codec)
              == if cmd != "status" then Failed("Unknown command")
                 else match codec.decodeStatus(payload)
                   case Some(status) => Done(StatusMessage(status))
                   case None => Panicked
    ensures |Split(cmd + [Separator] + payload, Separator)| >= 2
    ensures Split(cmd + [Separator] + payload, Separator)[1] == payload <==> Separator !in payload
  {
    SplitFrame(cmd, payload, Separator);
    FirstPiece(payload, Separator);
  }

  /** `try_receive_message`: the oldest received text, decoded, or the
      "No message available" error when nothing has arrived. */
  method TryReceiveMessage(rx: Channel<string>, codec: Codec) returns (r: Outcome<MessageIn>)
    modifies rx
    ensures rx.receiverAlive == old(rx.receiverAlive)
    ensures old(rx.queue) == [] ==> r == Failed("No message available") && rx.queue == []
    ensures old(rx.queue) != [] ==> r == DecodeFrame(old(rx.queue)[0], codec) && rx.queue == old(rx.queue)[1..]
  {
    var msg := rx.TryRecv();
    match msg
    case None =>
      r := Failed("No message available");
    case Some(text) =>
      r := DecodeFrame(text, codec);
  }

  /** `send_message`: writes "<command>;<payload>" to the socket, or
      returns the serialisation error; a failing socket write panics. */
  method SendMessage(ws: Channel<string>, m: MessageOut, codec: Codec) returns (r: Outcome<()>)
    modifies ws
    ensures ws.receiverAlive == old(ws.receiverAlive)
    ensures FormatFrame(m, codec).None? ==> r.Failed? && ws.queue == old(ws.queue)
    ensures FormatFrame(m, codec).Some? && ws.receiverAlive ==>
              r == Done(()) && ws.queue == old(ws.queue) + [FormatFrame(m, codec).value]
    ensures FormatFrame(m, codec).Some? && !ws.receiverAlive ==> r.Panicked? && ws.queue == old(ws.queue)
  {
    var frame := FormatFrame(m, codec);
    if frame.None? {
      return Failed("serialization failed");
    }
    var ok := ws.Send(frame.value);
    r := if ok then Done(()) else Panicked;
  }
}
