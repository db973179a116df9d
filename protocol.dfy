/** The messages exchanged over the scanner's WebSocket, in the shape the
    server uses them (the `msg` crate): commands from the client, responses
    from the server. The JSON encoding of these types is not part of this
    model. */
module Protocol {
  import opened Geometry

  datatype Command = Status | Replay

  datatype LasersData = LasersData(laser1: bool, laser2: bool)

  datatype StatusData = StatusData(lasers: LasersData, motorSpeed: real)

  datatype Response =
    | Ok
    | Error(message: string)
    | Close
    | Status(status: StatusData)
    | PointCloud(points: seq<Point3>)

  /** `{:?}` of a command, as it appears in error replies. */
  function CommandName(c: Command): (s: string)
    ensures c.Status? ==> s == "Status"
    ensures c.Replay? ==> s == "Replay"
  {
    match c
    case Status => "Status"
    case Replay => "Replay"
  }
}
