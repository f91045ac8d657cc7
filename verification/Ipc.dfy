/** Frames and connections. Payloads are the messages they decode to; the wire codec is not modelled. */
module Ipc {
  import opened Basics

  datatype Frame<+P> =
    | Request(requestId: nat, sessionId: nat, source: string, target: string, payload: P)
    | Response(requestId: nat, sessionId: nat, source: string, target: string, payload: P)
    | Event(sessionId: nat, source: string, target: string, name: string, payload: P)
    | Stream(streamId: nat, streamRequest: Option<nat>, sessionId: nat, source: string, target: string, payload: P, end: bool)
    | Cancel(cancelRequest: Option<nat>, cancelStream: Option<nat>, sessionId: nat, source: string, target: string)
    | Heartbeat(sessionId: nat, source: string, target: string)
    | Error(errorRequest: Option<nat>, errorStream: Option<nat>, errorSession: Option<nat>, source: string, target: string,
            code: string, message: string)

  /** What one receive call yields: a frame, the end of the connection, or an error. */
  datatype Received<+P> = Got(frame: Frame<P>) | Closed | Broken

  /** A connection as one side sees it: what it will receive, what it has sent,
      and which of its coming sends succeed. Past the end of the inbox the peer has closed. */
  datatype Connection<P> = Connection(inbox: seq<Received<P>>, sent: seq<Frame<P>>, sendResults: seq<bool>) {

    function Send(frame: Frame<P>): (Connection<P>, bool) {
      if sendResults == [] then (this.(sent := sent + [frame]), true)
      else if sendResults[0] then (this.(sent := sent + [frame], sendResults := sendResults[1..]), true)
      else (this.(sendResults := sendResults[1..]), false)
    }

    function Receive(): (Connection<P>, Received<P>) {
      if inbox == [] then (this, Closed)
      else (this.(inbox := inbox[1..]), inbox[0])
    }
  }

  datatype ExchangeError = SendFailed | ReceiveFailed | PeerClosed | NotAResponse | WrongId

  /** The check every client makes on what it receives after a request: a response to that very request. */
  function AnswerTo<P>(requestId: nat, received: Received<P>): Result<P, ExchangeError> {
    match received
    case Broken => Err(ReceiveFailed)
    case Closed => Err(PeerClosed)
    case Got(frame) =>
      if !frame.Response? then Err(NotAResponse)
      else if frame.requestId != requestId then Err(WrongId)
      else Ok(frame.payload)
  }

  /** Send one request and take the next frame as its answer. */
  function Exchange<P>(c: Connection<P>, request: Frame<P>): (Connection<P>, Result<P, ExchangeError>)
    requires request.Request?
  {
    var (c', sent) := c.Send(request);
    if !sent then (c', Err(SendFailed))
    else
      var (c'', received) := c'.Receive();
      (c'', AnswerTo(request.requestId, received))
  }

  function TargetOrCore(target: string): string {
    if target == "" then "core" else target
  }
}
