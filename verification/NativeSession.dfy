/** The native host's cached connection to the core, and both ends of it joined. */
module NativeSession {
  import opened Basics
  import opened FrontendProtocol
  import opened Ipc
  import A = Approval

  /** What a payload holds: a control message, a dispatch message, or bytes that are neither. */
  datatype CorePayload =
    | Control(message: ControlMessage)
    | DispatchRequest(appId: string, call: string, payload: Content)
    | DispatchResult(response: FrontendDispatchResponse)
    | Undecodable

  type CoreFrame = Frame<CorePayload>
  type CoreConnection = Connection<CorePayload>

  datatype SessionError = CoreUnavailable | CoreIpc | UnexpectedCoreResponse

  function ExchangeFailure(e: ExchangeError): SessionError {
    match e
    case SendFailed => CoreIpc
    case ReceiveFailed => CoreIpc
    case PeerClosed => CoreIpc
    case NotAResponse => UnexpectedCoreResponse
    case WrongId => UnexpectedCoreResponse
  }

  function ControlReply(answer: Result<CorePayload, ExchangeError>): Result<ControlMessage, SessionError> {
    match answer
    case Err(e) => Err(ExchangeFailure(e))
    case Ok(payload) => if payload.Control? then Ok(payload.message) else Err(CoreIpc)
  }

  function DispatchReply(answer: Result<CorePayload, ExchangeError>): Result<FrontendDispatchResponse, SessionError> {
    match answer
    case Err(e) => Err(ExchangeFailure(e))
    case Ok(payload) =>
      if payload.DispatchResult? then Ok(payload.response)
      else if payload.DispatchRequest? then Err(UnexpectedCoreResponse)
      else Err(CoreIpc)
  }

  /** The call that made the request returns a value. */
  predicate Succeeds(request: CorePayload, answer: Result<CorePayload, ExchangeError>)
    ensures Succeeds(request, answer) ==> answer.Ok?
  {
    if request.DispatchRequest? then DispatchReply(answer).Ok? else ControlReply(answer).Ok?
  }

  // ---------------------------------------------- commands and their results

  datatype NativeCommand =
    | Ping
    | Status
    | Dispatch(appId: string, call: string, payload: Content)
    | ApprovalsList
    | ApprovalApprove(approvalId: string)
    | ApprovalReject(approvalId: string)

  datatype NativeResult =
    | Pong
    | Status(workerCount: nat, socketPath: string, runtimeReady: bool)
    | Dispatch(payload: Content)
    | DispatchError(code: string, message: string)
    | PendingApprovals(approvals: seq<A.PendingApproval>)
    | ApprovalDecision

  datatype NativeError = CallFailed(error: SessionError) | Platform(code: string)

  function CoreRequest(command: NativeCommand): CorePayload {
    match command
    case Ping => Control(ControlMessage.Ping)
    case Status => Control(ControlMessage.Status)
    case Dispatch(appId, call, payload) => DispatchRequest(appId, call, payload)
    case ApprovalsList => Control(ListPendingApprovals)
    case ApprovalApprove(approvalId) => Control(ApprovePendingApproval(approvalId))
    case ApprovalReject(approvalId) => Control(RejectPendingApproval(approvalId))
  }

  function ControlResult(command: NativeCommand, message: ControlMessage): Result<NativeResult, NativeError> {
    match (command, message)
    case (Ping, Pong) => Ok(NativeResult.Pong)
    case (Status, StatusResult(workerCount, socketPath, runtimeReady)) =>
      Ok(NativeResult.Status(workerCount, socketPath, runtimeReady))
    case (ApprovalsList, PendingApprovalsResult(approvals)) => Ok(PendingApprovals(approvals))
    case (ApprovalApprove(_), ApprovalDecisionResult) => Ok(ApprovalDecision)
    case (ApprovalReject(_), ApprovalDecisionResult) => Ok(ApprovalDecision)
    case _ => Err(CallFailed(UnexpectedCoreResponse))
  }

  function DispatchOutcome(response: FrontendDispatchResponse): Result<NativeResult, NativeError> {
    match response
    case Done(payload) => Ok(NativeResult.Dispatch(payload))
    case AppError(code, message) => Ok(DispatchError(code, message))
    case PlatformError(code) => Err(Platform(code))
  }

  /** What a command is answered with, given what its one exchange with the core yields. */
  function NativeReply(command: NativeCommand, answer: Result<CorePayload, ExchangeError>): Result<NativeResult, NativeError> {
    if command.Dispatch? then
      match DispatchReply(answer)
      case Err(e) => Err(CallFailed(e))
      case Ok(response) => DispatchOutcome(response)
    else
      match ControlReply(answer)
      case Err(e) => Err(CallFailed(e))
      case Ok(message) => ControlResult(command, message)
  }

  /** How a command fails when what is received is no usable answer: the connection's fault, or an unexpected frame. */
  lemma UnusableAnswers(command: NativeCommand, requestId: nat, received: Received<CorePayload>)
    ensures var reply := NativeReply(command, AnswerTo(requestId, received));
            match received
            case Closed => reply == Err(CallFailed(CoreIpc))
            case Broken => reply == Err(CallFailed(CoreIpc))
            case Got(frame) =>
              && (!frame.Response? || frame.requestId != requestId ==> reply == Err(CallFailed(UnexpectedCoreResponse)))
              && (frame.Response? && frame.requestId == requestId ==>
                    && (frame.payload.Undecodable? ==> reply == Err(CallFailed(CoreIpc)))
                    && (command.Dispatch? && frame.payload.Control? ==> reply == Err(CallFailed(CoreIpc)))
                    && (command.Dispatch? && frame.payload.DispatchRequest? ==> reply == Err(CallFailed(UnexpectedCoreResponse)))
                    && (!command.Dispatch? && !frame.payload.Control? ==> reply == Err(CallFailed(CoreIpc))))
  {
  }

  /** What connecting to the core's socket yields: nothing, or a connection on which nothing was sent yet. */
  datatype Connect = Refused | Accepted(inbox: seq<Received<CorePayload>>, sendResults: seq<bool>)

  /** The connection a call works on: the cached one, or else a new one. */
  function Connected(cached: Option<CoreConnection>, connect: Connect): Option<CoreConnection> {
    if cached.Some? then cached
    else
      match connect
      case Refused => None
      case Accepted(inbox, sendResults) => Some(Connection(inbox, [], sendResults))
  }

  class Session {
    var connection: Option<CoreConnection>
    var nextRequestId: nat
    /** Responses accepted on the cached connection. */
    ghost var accepted: nat
    /** Ids of all requests made, across connections. */
    ghost var issued: seq<nat>

    /** A cached connection has had as many responses accepted as requests sent on it. */
    ghost predicate Valid()
      reads this
    {
      && (connection.Some? ==> |connection.value.sent| == accepted)
      && (forall i :: 0 <= i < |issued| ==> issued[i] < nextRequestId)
      && (forall i, j :: 0 <= i < j < |issued| ==> issued[i] < issued[j])
    }

    constructor ()
      ensures Valid() && connection == None && nextRequestId == 1
    {
      connection := None;
      nextRequestId := 1;
      accepted := 0;
      issued := [];
    }

    method EnsureConnection(connect: Connect) returns (ok: bool)
      requires Valid()
      modifies this`connection, this`accepted
      ensures Valid()
      ensures connection == Connected(old(connection), connect)
      ensures old(connection).Some? ==> connection == old(connection) && accepted == old(accepted)
      ensures old(connection) == None && connection.Some? ==> connection.value.sent == [] && connect.Accepted?
      ensures ok <==> connection.Some?
    {
      if connection.Some? {
        return true;
      }
      match connect {
        case Refused => return false;
        case Accepted(inbox, sendResults) =>
          connection := Some(Connection(inbox, [], sendResults));
          accepted := 0;
          return true;
      }
    }

    method NextRequestId() returns (requestId: nat)
      requires Valid()
      modifies this`nextRequestId, this`issued
      ensures Valid()
      ensures requestId == old(nextRequestId) && nextRequestId == requestId + 1
      ensures issued == old(issued) + [requestId]
    {
      requestId := nextRequestId;
      nextRequestId := nextRequestId + 1;
      issued := issued + [requestId];
    }

    /** One request and its answer on the cached connection, before the reply is decoded. */
    method Send(payload: CorePayload) returns (answer: Result<CorePayload, ExchangeError>)
      requires Valid() && connection.Some?
      modifies this
      ensures nextRequestId == old(nextRequestId) + 1 && issued == old(issued) + [old(nextRequestId)]
      ensures connection.Some?
      ensures (connection.value, answer)
           == Exchange(old(connection).value, Request(old(nextRequestId), 1, "native-host", "core", payload))
      ensures answer.Ok? ==> Valid() && accepted == old(accepted) + 1
    {
      var requestId := NextRequestId();
      var frame := Request(requestId, 1, "native-host", "core", payload);
      var (sending, sent) := connection.value.Send(frame);
      connection := Some(sending);
      if !sent {
        return Err(SendFailed);
      }
      var (receiving, received) := connection.value.Receive();
      connection := Some(receiving);
      answer := AnswerTo(requestId, received);
      if answer.Ok? {
        accepted := accepted + 1;
      }
    }

    method SendCoreControl(message: ControlMessage, connect: Connect) returns (r: Result<ControlMessage, SessionError>)
      requires Valid()
      modifies this
      ensures Valid()
      ensures var before := Connected(old(connection), connect);
              match before
              case None => r == Err(CoreUnavailable) && connection == None && nextRequestId == old(nextRequestId)
              case Some(c) =>
                var (c', answer) := Exchange(c, Request(old(nextRequestId), 1, "native-host", "core", Control(message)));
                && r == ControlReply(answer)
                && connection == (if r.Ok? then Some(c') else None)
                && nextRequestId == old(nextRequestId) + 1
    {
      var ok := EnsureConnection(connect);
      if !ok {
        return Err(CoreUnavailable);
      }
      var answer := Send(Control(message));
      r := ControlReply(answer);
      if r.Err? {
        connection := None;
      }
    }

    method SendFrontendDispatch(appId: string, call: string, payload: Content, connect: Connect)
      returns (r: Result<FrontendDispatchResponse, SessionError>)
      requires Valid()
      modifies this
      ensures Valid()
      ensures var before := Connected(old(connection), connect);
              match before
              case None => r == Err(CoreUnavailable) && connection == None && nextRequestId == old(nextRequestId)
              case Some(c) =>
                var (c', answer) := Exchange(c, Request(old(nextRequestId), 1, "native-host", "core", DispatchRequest(appId, call, payload)));
                && r == DispatchReply(answer)
                && connection == (if r.Ok? then Some(c') else None)
                && nextRequestId == old(nextRequestId) + 1
    {
      var ok := EnsureConnection(connect);
      if !ok {
        return Err(CoreUnavailable);
      }
      var answer := Send(DispatchRequest(appId, call, payload));
      r := DispatchReply(answer);
      if r.Err? {
        connection := None;
      }
    }

    method HandleRequest(command: NativeCommand, connect: Connect) returns (reply: Result<NativeResult, NativeError>)
      requires Valid()
      modifies this
      ensures Valid()
      ensures var before := Connected(old(connection), connect);
              match before
              case None => reply == Err(CallFailed(CoreUnavailable)) && connection == None && nextRequestId == old(nextRequestId)
              case Some(c) =>
                var (c', answer) := Exchange(c, Request(old(nextRequestId), 1, "native-host", "core", CoreRequest(command)));
                && reply == NativeReply(command, answer)
                && connection == (if Succeeds(CoreRequest(command), answer) then Some(c') else None)
                && nextRequestId == old(nextRequestId) + 1
      ensures connection.Some? ==>
                connection.value.sent
                == (if old(connection).Some? then old(connection).value.sent else [])
                   + [Request(old(nextRequestId), 1, "native-host", "core", CoreRequest(command))]
    {
      if command.Dispatch? {
        var r := SendFrontendDispatch(command.appId, command.call, command.payload, connect);
        return if r.Ok? then DispatchOutcome(r.value) else Err(CallFailed(r.error));
      }
      var r := SendCoreControl(CoreRequest(command).message, connect);
      return if r.Ok? then ControlResult(command, r.value) else Err(CallFailed(r.error));
    }
  }

  // ------------------------------------------------ session and core joined

  datatype Entry =
    | Asked(id: nat, request: CorePayload)
    | Answered(id: nat, request: CorePayload, reply: CorePayload)
    | Taken(id: nat, reply: CorePayload)
    | Dropped(id: nat)

  /** The connection in flight between the session and the core's frontend loop. pending: the theme changes
      broadcast to this connection that it has yet to forward; start: the length of the log when it was made. */
  datatype Link = Link(
    connected: bool,
    coreOpen: bool,
    toCore: seq<CoreFrame>,
    toHost: seq<CoreFrame>,
    awaiting: Option<nat>,
    asked: CorePayload,
    pending: seq<ThemeFlavor>,
    start: nat,
    nextRequestId: nat,
    log: seq<Entry>)

  datatype Step =
    | HostConnects
    | HostSends(request: CorePayload)
    | HostSendFails(request: CorePayload)
    | HostReceives
    | CoreHandles(reply: CorePayload)
    | CoreFails
    | CoreForwardsTheme
    | CoreLags

  const APART := Link(false, false, [], [], None, Undecodable, [], 0, 1, [])

  /** What the core answers to a control request. */
  predicate ControlAnswers(request: ControlMessage, reply: ControlMessage) {
    match request
    case Ping => reply == ControlMessage.Pong
    case Status => reply.StatusResult? && reply.runtimeReady
    case ListPendingApprovals => reply.PendingApprovalsResult?
    case ApprovePendingApproval(_) => reply == ApprovalDecisionResult
    case RejectPendingApproval(_) => reply == ApprovalDecisionResult
    case GetTheme => reply.GetThemeResult?
    case SetTheme(_) => reply == SetThemeResult
    case _ => false
  }

  predicate Answers(request: CorePayload, reply: CorePayload) {
    || (request.Control? && reply.Control? && ControlAnswers(request.message, reply.message))
    || (request.DispatchRequest? && reply.DispatchResult?)
  }

  /** The core serves this payload; any other ends the connection. */
  predicate Served(payload: CorePayload) {
    match payload
    case Control(message) =>
      message.Ping? || message.Status? || message.ListPendingApprovals? || message.ApprovePendingApproval? ||
      message.RejectPendingApproval? || message.GetTheme? || message.SetTheme?
    case DispatchRequest(_, _, _) => true
    case _ => false
  }

  predicate SetsTheme(payload: CorePayload) {
    payload.Control? && payload.message.SetTheme?
  }

  function ThemeEvent(flavor: ThemeFlavor): CoreFrame {
    Event(0, "core", "frontend", "theme_changed", Control(ThemeChanged(flavor)))
  }

  function DropConnection(l: Link): Link {
    l.(connected := false, coreOpen := false, toCore := [], toHost := [], awaiting := None, pending := [])
  }

  /** A step that is not possible leaves the link as it is. */
  function Next(l: Link, step: Step): Link {
    match step
    case HostConnects =>
      if l.connected then l else l.(connected := true, coreOpen := true, start := |l.log|)
    case HostSends(request) =>
      if !l.connected || l.awaiting != None then l
      else
        var id := l.nextRequestId;
        l.(toCore := l.toCore + [Request(id, 1, "native-host", "core", request)],
           awaiting := Some(id), asked := request, nextRequestId := id + 1, log := l.log + [Asked(id, request)])
    case HostSendFails(request) =>
      if !l.connected || l.awaiting != None then l
      else
        var id := l.nextRequestId;
        DropConnection(l).(nextRequestId := id + 1, log := l.log + [Asked(id, request), Dropped(id)])
    case HostReceives =>
      if l.awaiting == None || (l.toHost == [] && l.coreOpen) then l
      else
        var id := l.awaiting.value;
        var received := if l.toHost == [] then Closed else Got(l.toHost[0]);
        if Succeeds(l.asked, AnswerTo(id, received)) then
          l.(toHost := l.toHost[1..], awaiting := None, log := l.log + [Taken(id, AnswerTo(id, received).value)])
        else DropConnection(l).(log := l.log + [Dropped(id)])
    case CoreHandles(reply) =>
      if !l.coreOpen || l.toCore == [] then l
      else if !l.toCore[0].Request? || !Served(l.toCore[0].payload) then l.(coreOpen := false)
      else if !Answers(l.toCore[0].payload, reply) then l
      else
        var f := l.toCore[0];
        l.(toCore := l.toCore[1..],
           toHost := l.toHost + [Response(f.requestId, f.sessionId, TargetOrCore(f.target), f.source, reply)],
           pending := if SetsTheme(f.payload) then l.pending + [f.payload.message.flavor] else l.pending,
           log := l.log + [Answered(f.requestId, f.payload, reply)])
    case CoreFails => l.(coreOpen := false)
    case CoreForwardsTheme =>
      if !l.coreOpen || l.pending == [] then l
      else l.(toHost := l.toHost + [ThemeEvent(l.pending[0])], pending := l.pending[1..])
    case CoreLags =>
      if !l.coreOpen || l.pending == [] then l else l.(pending := l.pending[1..])
  }

  function RunFrom(l: Link, steps: seq<Step>): Link {
    if steps == [] then l else Next(RunFrom(l, steps[..|steps| - 1]), steps[|steps| - 1])
  }

  function Run(steps: seq<Step>): Link {
    RunFrom(APART, steps)
  }

  predicate OnlyEvents(q: seq<CoreFrame>) {
    forall x :: 0 <= x < |q| ==> q[x].Event?
  }

  /** The one response under way is the core's answer to this request; all else are events. */
  ghost predicate AnswerAt(q: seq<CoreFrame>, p: nat, id: nat, request: CorePayload, log: seq<Entry>) {
    && p < |q|
    && q[p].Response?
    && q[p].requestId == id
    && Answered(id, request, q[p].payload) in log
    && forall x :: 0 <= x < |q| && x != p ==> q[x].Event?
  }

  ghost predicate InFlight(l: Link) {
    match l.awaiting
    case None => l.toCore == [] && OnlyEvents(l.toHost)
    case Some(id) =>
      && l.connected
      && Asked(id, l.asked) in l.log
      && (forall e :: e in l.log ==> e != Dropped(id) && (e.Taken? ==> e.id != id))
      && (|| (|l.toCore| == 1 && l.toCore[0].Request? && l.toCore[0].requestId == id && l.toCore[0].payload == l.asked && OnlyEvents(l.toHost)
              && (forall e :: e in l.log && e.Answered? ==> e.id != id))
          || (l.toCore == [] && exists p: nat :: AnswerAt(l.toHost, p, id, l.asked, l.log)))
  }

  /** What entry k may rest on: a reply taken for a request is the core's answer to that request. */
  ghost predicate Sound(log: seq<Entry>, k: nat)
    requires k < |log|
  {
    match log[k]
    case Asked(id, _) => forall x :: 0 <= x < k ==> log[x].id < id
    case Answered(id, request, reply) =>
      && Asked(id, request) in log[..k] && Answers(request, reply)
      && forall x :: 0 <= x < k && log[x].Answered? ==> log[x].id != id
    case Taken(id, reply) =>
      && (exists request :: Asked(id, request) in log[..k] && Answered(id, request, reply) in log[..k])
      && forall x :: 0 <= x < k && (log[x].Taken? || log[x].Dropped?) ==> log[x].id != id
    case Dropped(_) => true
  }

  ghost predicate Inv(l: Link) {
    && (forall k :: 0 <= k < |l.log| ==> Sound(l.log, k))
    && (forall k :: 0 <= k < |l.log| ==> l.log[k].id < l.nextRequestId)
    && (!l.connected ==> !l.coreOpen && l.toHost == [])
    && InFlight(l)
  }

  lemma SoundExtends(log: seq<Entry>, more: seq<Entry>, k: nat)
    requires k < |log| && Sound(log, k)
    ensures Sound(log + more, k)
  {
    assert (log + more)[..k] == log[..k];
  }

  /** The log part of the invariant under one further entry. */
  lemma LogGrows(l: Link, e: Entry, nextRequestId: nat)
    requires forall k :: 0 <= k < |l.log| ==> Sound(l.log, k)
    requires forall k :: 0 <= k < |l.log| ==> l.log[k].id < l.nextRequestId
    requires l.nextRequestId <= nextRequestId && e.id < nextRequestId
    requires Sound(l.log + [e], |l.log|)
    ensures forall k :: 0 <= k < |l.log + [e]| ==> Sound(l.log + [e], k)
    ensures forall k :: 0 <= k < |l.log + [e]| ==> (l.log + [e])[k].id < nextRequestId
  {
    forall k | 0 <= k < |l.log| ensures Sound(l.log + [e], k) {
      SoundExtends(l.log, [e], k);
    }
  }

  lemma SendKeepsInv(l: Link, request: CorePayload)
    requires Inv(l) && l.connected && l.awaiting == None
    ensures Inv(Next(l, HostSends(request)))
  {
    var e := Asked(l.nextRequestId, request);
    LogGrows(l, e, l.nextRequestId + 1);
    var l' := Next(l, HostSends(request));
    assert e in l'.log;
    assert forall x :: x in l.log ==> x.id < l.nextRequestId;
  }

  lemma SendFailureKeepsInv(l: Link, request: CorePayload)
    requires Inv(l) && l.connected && l.awaiting == None
    ensures Inv(Next(l, HostSendFails(request)))
  {
    var id := l.nextRequestId;
    LogGrows(l, Asked(id, request), id + 1);
    var l1 := l.(log := l.log + [Asked(id, request)], nextRequestId := id + 1);
    LogGrows(l1, Dropped(id), id + 1);
    assert l.log + [Asked(id, request), Dropped(id)] == l1.log + [Dropped(id)];
  }

  lemma HandleKeepsInv(l: Link, reply: CorePayload)
    requires Inv(l) && l.coreOpen && l.toCore != [] && Answers(l.toCore[0].payload, reply)
    ensures Inv(Next(l, CoreHandles(reply)))
  {
    assert (l.log + [Answered(l.awaiting.value, l.asked, reply)])[..|l.log|] == l.log;
    var id := l.awaiting.value;
    var l' := Next(l, CoreHandles(reply));
    LogGrows(l, Answered(id, l.asked, reply), l.nextRequestId);
    assert Answered(id, l.asked, reply) in l'.log;
    assert AnswerAt(l'.toHost, |l.toHost|, id, l.asked, l'.log);
    assert Asked(id, l.asked) in l'.log;
  }

  lemma ForwardKeepsInv(l: Link)
    requires Inv(l)
    ensures Inv(Next(l, CoreForwardsTheme))
  {
    var l' := Next(l, CoreForwardsTheme);
    if l.awaiting.Some? && l.toCore == [] {
      var p: nat :| AnswerAt(l.toHost, p, l.awaiting.value, l.asked, l.log);
      assert AnswerAt(l'.toHost, p, l.awaiting.value, l.asked, l'.log);
    }
  }

  lemma ReceiveKeepsInv(l: Link)
    requires Inv(l) && l.awaiting.Some?
    ensures Inv(Next(l, HostReceives))
  {
    var id := l.awaiting.value;
    var l' := Next(l, HostReceives);
    if l' != l {
      var e := l'.log[|l.log|];
      if e.Taken? {
        var p: nat :| AnswerAt(l.toHost, p, id, l.asked, l.log);
        assert p == 0;
        assert OnlyEvents(l.toHost[1..]);
        assert l'.log[..|l.log|] == l.log;
      }
      LogGrows(l, e, l.nextRequestId);
    }
  }

  lemma NextKeepsInv(l: Link, step: Step)
    requires Inv(l)
    ensures Inv(Next(l, step))
  {
    match step
    case HostConnects =>
    case HostSends(request) => if l.connected && l.awaiting == None { SendKeepsInv(l, request); }
    case HostSendFails(request) => if l.connected && l.awaiting == None { SendFailureKeepsInv(l, request); }
    case HostReceives => if l.awaiting.Some? { ReceiveKeepsInv(l); }
    case CoreHandles(reply) => if l.coreOpen && l.toCore != [] && Answers(l.toCore[0].payload, reply) { HandleKeepsInv(l, reply); }
    case CoreFails =>
    case CoreForwardsTheme => ForwardKeepsInv(l);
    case CoreLags =>
  }

  lemma {:induction false} RunKeepsInv(steps: seq<Step>)
    ensures Inv(Run(steps))
  {
    if steps != [] {
      RunKeepsInv(steps[..|steps| - 1]);
      NextKeepsInv(Run(steps[..|steps| - 1]), steps[|steps| - 1]);
    }
  }

  /** In every run, across reconnects and with theme events in between: a reply taken for a request is the
      core's one answer to that very request, no other entry takes a reply for it, and its request was asked once. */
  lemma RepliesAreOwn(steps: seq<Step>, k: nat)
    requires k < |Run(steps).log| && Run(steps).log[k].Taken?
    ensures var log := Run(steps).log;
            var id := log[k].id;
            && (exists request :: Asked(id, request) in log[..k] && Answered(id, request, log[k].reply) in log[..k])
            && (forall x :: 0 <= x < |log| && x != k && log[x].Taken? ==> log[x].id != id)
            && (forall x, y :: 0 <= x < y < |log| && log[x].Asked? && log[y].Asked? ==> log[x].id < log[y].id)
            && (forall x, y :: 0 <= x < y < |log| && log[x].Answered? && log[y].Answered? ==> log[x].id != log[y].id)
  {
    RunKeepsInv(steps);
    var log := Run(steps).log;
    assert Sound(log, k);
    forall x | 0 <= x < |log| && x != k && log[x].Taken? ensures log[x].id != log[k].id {
      assert Sound(log, x);
    }
    forall x, y | 0 <= x < y < |log|
      ensures log[x].Asked? && log[y].Asked? ==> log[x].id < log[y].id
      ensures log[x].Answered? && log[y].Answered? ==> log[x].id != log[y].id
    {
      assert Sound(log, y);
    }
  }

  /** Between calls a kept connection carries no reply that a later request could take. */
  lemma IdleCarriesNoReply(steps: seq<Step>)
    requires Run(steps).awaiting == None
    ensures Run(steps).toCore == [] && OnlyEvents(Run(steps).toHost)
  {
    RunKeepsInv(steps);
  }

  /** A call that has something to receive, or learns that the core is gone, succeeds exactly when the first frame
      there is the response, of the kind asked for: an event ahead of it drops the connection, whether or not the core
      has handled the request by then. No event is there unless this client sets a theme itself (NoThemeNoEvents). */
  lemma ReceiveSucceedsIff(steps: seq<Step>)
    requires Run(steps).awaiting.Some?
    requires Run(steps).toHost != [] || !Run(steps).coreOpen
    ensures var l := Run(steps);
            var l' := Next(l, HostReceives);
            && (l'.connected <==> l.toHost != [] && l.toHost[0].Response? && Succeeds(l.asked, Ok(l.toHost[0].payload)))
            && (l'.connected ==> l'.log == l.log + [Taken(l.awaiting.value, l.toHost[0].payload)])
            && (!l'.connected ==> l'.log == l.log + [Dropped(l.awaiting.value)])
  {
    RunKeepsInv(steps);
  }

  // ------------------------------------------------- where events come from

  /** On this connection the core has answered a request to set this theme. */
  ghost predicate ThemeSet(l: Link, flavor: ThemeFlavor) {
    exists k :: l.start <= k < |l.log| && l.log[k].Answered? && l.log[k].request == Control(SetTheme(flavor))
  }

  /** Events, sent or still to be forwarded, are theme changes asked for and answered on this very connection. */
  ghost predicate EventsOwed(l: Link) {
    && l.start <= |l.log|
    && (!l.connected ==> l.pending == [] && l.toHost == [])
    && (forall x :: 0 <= x < |l.pending| ==> ThemeSet(l, l.pending[x]))
    && (forall x :: 0 <= x < |l.toHost| && l.toHost[x].Event? ==>
          exists flavor :: l.toHost[x] == ThemeEvent(flavor) && ThemeSet(l, flavor))
  }

  lemma ThemeStaysSet(l: Link, l': Link, flavor: ThemeFlavor)
    requires ThemeSet(l, flavor) && l'.start == l.start && l.log <= l'.log
    ensures ThemeSet(l', flavor)
  {
    var k :| l.start <= k < |l.log| && l.log[k].Answered? && l.log[k].request == Control(SetTheme(flavor));
    assert l'.log[k] == l.log[k];
  }

  /** The log part of the step: everything owed before is owed after, as far as it is still there. */
  lemma OwedStays(l: Link, l': Link)
    requires EventsOwed(l) && l'.start == l.start && l.log <= l'.log && l'.connected
    requires forall flavor :: flavor in l'.pending ==> flavor in l.pending || ThemeSet(l', flavor)
    requires forall f :: f in l'.toHost && f.Event? ==> f in l.toHost || exists x :: 0 <= x < |l.pending| && f == ThemeEvent(l.pending[x])
    ensures EventsOwed(l')
  {
    forall x | 0 <= x < |l'.pending| ensures ThemeSet(l', l'.pending[x]) {
      if l'.pending[x] in l.pending { ThemeStaysSet(l, l', l'.pending[x]); }
    }
    forall x | 0 <= x < |l'.toHost| && l'.toHost[x].Event?
      ensures exists flavor :: l'.toHost[x] == ThemeEvent(flavor) && ThemeSet(l', flavor)
    {
      var f := l'.toHost[x];
      if f in l.toHost {
        var flavor :| f == ThemeEvent(flavor) && ThemeSet(l, flavor);
        ThemeStaysSet(l, l', flavor);
      } else {
        var y :| 0 <= y < |l.pending| && f == ThemeEvent(l.pending[y]);
        ThemeStaysSet(l, l', l.pending[y]);
      }
    }
  }

  lemma NextKeepsOwed(l: Link, step: Step)
    requires Inv(l) && EventsOwed(l)
    ensures EventsOwed(Next(l, step))
  {
    var l' := Next(l, step);
    if l.connected && l'.connected {
      if step.CoreHandles? && l' != l && l.toCore[0].Request? && SetsTheme(l.toCore[0].payload) {
        assert l'.log == l.log || l'.log[|l.log|].request == l.toCore[0].payload;
      }
      OwedStays(l, l');
    }
  }

  /** In every run, an event on the link follows an answer to a request, on the same connection, to set that theme. */
  lemma {:induction false} EventsFollowSetTheme(steps: seq<Step>)
    ensures EventsOwed(Run(steps))
  {
    if steps != [] {
      EventsFollowSetTheme(steps[..|steps| - 1]);
      RunKeepsInv(steps[..|steps| - 1]);
      NextKeepsOwed(Run(steps[..|steps| - 1]), steps[|steps| - 1]);
    }
  }

  predicate Sends(step: Step, request: CorePayload) {
    step == HostSends(request) || step == HostSendFails(request)
  }

  lemma OnlySendsAsk(l: Link, step: Step, request: CorePayload)
    requires !Sends(step, request)
    requires forall e :: e in l.log && e.Asked? ==> e.request != request
    ensures forall e :: e in Next(l, step).log && e.Asked? ==> e.request != request
  {
  }

  /** A request that the client was never given to send is never asked. */
  lemma {:induction false} AskedWasSent(steps: seq<Step>, request: CorePayload)
    requires forall k :: 0 <= k < |steps| ==> !Sends(steps[k], request)
    ensures forall e :: e in Run(steps).log && e.Asked? ==> e.request != request
  {
    if steps != [] {
      var front, last := steps[..|steps| - 1], steps[|steps| - 1];
      AskedWasSent(front, request);
      assert !Sends(last, request);
      OnlySendsAsk(Run(front), last, request);
    }
  }

  // --------------------------------------------------- clients without themes

  ghost predicate SetsNoTheme(steps: seq<Step>) {
    forall k, flavor :: 0 <= k < |steps| ==> !Sends(steps[k], Control(SetTheme(flavor)))
  }

  lemma AnsweredWasAsked(steps: seq<Step>)
    ensures forall e :: e in Run(steps).log && e.Answered? ==> Asked(e.id, e.request) in Run(steps).log
  {
    RunKeepsInv(steps);
    var log := Run(steps).log;
    forall k | 0 <= k < |log| && log[k].Answered? ensures Asked(log[k].id, log[k].request) in log {
      assert Sound(log, k);
    }
  }

  lemma NoThemeIsSet(steps: seq<Step>, flavor: ThemeFlavor)
    requires SetsNoTheme(steps)
    ensures !ThemeSet(Run(steps), flavor)
  {
    var log := Run(steps).log;
    AskedWasSent(steps, Control(SetTheme(flavor)));
    AnsweredWasAsked(steps);
    assert forall k :: 0 <= k < |log| ==> log[k] in log;
  }

  /** A client that sets no theme never has an event on its connection. */
  lemma NoThemeNoEvents(steps: seq<Step>)
    requires SetsNoTheme(steps)
    ensures Run(steps).pending == []
    ensures forall x :: 0 <= x < |Run(steps).toHost| ==> !Run(steps).toHost[x].Event?
  {
    EventsFollowSetTheme(steps);
    assert Run(steps).pending != [] ==> ThemeSet(Run(steps), Run(steps).pending[0]);
    forall flavor ensures !ThemeSet(Run(steps), flavor) {
      NoThemeIsSet(steps, flavor);
    }
  }

  /** What such a client finds on its connection: between calls nothing, and during one at most the answer to it. */
  ghost predicate OnlyOwnAnswer(l: Link) {
    match l.awaiting
    case None => l.toHost == []
    case Some(id) =>
      || l.toHost == []
      || (|l.toHost| == 1 && l.toHost[0].Response? && l.toHost[0].requestId == id
          && Answered(id, l.asked, l.toHost[0].payload) in l.log && Answers(l.asked, l.toHost[0].payload))
  }

  lemma AnswerOrEvents(q: seq<CoreFrame>, p: nat, id: nat, request: CorePayload, log: seq<Entry>)
    requires AnswerAt(q, p, id, request, log)
    ensures |q| == 1 || exists x :: 0 <= x < |q| && q[x].Event?
  {
    if |q| > 1 { assert q[if p == 0 then 1 else 0].Event?; }
  }

  lemma OnlyOwnAnswers(steps: seq<Step>)
    requires SetsNoTheme(steps)
    ensures OnlyOwnAnswer(Run(steps))
  {
    var l := Run(steps);
    RunKeepsInv(steps);
    NoThemeNoEvents(steps);
    assert l.toHost != [] ==> !l.toHost[0].Event?;
    assert OnlyEvents(l.toHost) ==> l.toHost == [];
    if l.awaiting.Some? && l.toCore == [] {
      var p: nat :| AnswerAt(l.toHost, p, l.awaiting.value, l.asked, l.log);
      AnswerOrEvents(l.toHost, p, l.awaiting.value, l.asked, l.log);
      var k :| 0 <= k < |l.log| && l.log[k] == Answered(l.awaiting.value, l.asked, l.toHost[0].payload);
      assert Sound(l.log, k);
    }
  }

  /** A client that sets no theme has its call fail only if the connection does: with something to receive, or the core
      gone, it succeeds exactly when there is a frame, and then it takes the core's one answer to its own request. */
  lemma CallFailsOnlyWithConnection(steps: seq<Step>)
    requires SetsNoTheme(steps)
    requires Run(steps).awaiting.Some?
    requires Run(steps).toHost != [] || !Run(steps).coreOpen
    ensures var l := Run(steps);
            var l' := Next(l, HostReceives);
            && (l'.connected <==> l.toHost != [])
            && (l'.connected ==>
                  && l'.log == l.log + [Taken(l.awaiting.value, l.toHost[0].payload)]
                  && Answers(l.asked, l.toHost[0].payload)
                  && l'.toHost == [])
            && (!l'.connected ==> l'.log == l.log + [Dropped(l.awaiting.value)])
  {
    OnlyOwnAnswers(steps);
    ReceiveSucceedsIff(steps);
  }

  /** Every request is that of a native command. */
  ghost predicate Native(steps: seq<Step>) {
    forall k, request :: 0 <= k < |steps| && Sends(steps[k], request) ==> exists command :: request == CoreRequest(command)
  }

  predicate ResultFits(command: NativeCommand, result: NativeResult) {
    match command
    case Ping => result.Pong?
    case Status => result.Status? && result.runtimeReady
    case Dispatch(_, _, _) => result.Dispatch? || result.DispatchError?
    case ApprovalsList => result.PendingApprovals?
    case ApprovalApprove(_) => result.ApprovalDecision?
    case ApprovalReject(_) => result.ApprovalDecision?
  }

  /** An answer of the core's is never an unexpected one: each command gets its own kind of result, and only a dispatch
      can be refused, by the platform. */
  lemma AnswerFits(command: NativeCommand, payload: CorePayload)
    requires Answers(CoreRequest(command), payload)
    ensures var reply := NativeReply(command, Ok(payload));
            if reply.Ok? then ResultFits(command, reply.value) else command.Dispatch? && reply.error.Platform?
  {
  }

  /** In every run of native commands: the one under way, once there is something to receive or the core is gone, is
      answered with its own kind of result or a platform error if the core answered, and fails only if it did not. */
  lemma NativeCommandsAreServed(steps: seq<Step>)
    requires Native(steps)
    requires Run(steps).awaiting.Some?
    requires Run(steps).toHost != [] || !Run(steps).coreOpen
    ensures var l := Run(steps);
            exists command ::
              && l.asked == CoreRequest(command)
              && (Next(l, HostReceives).connected <==> l.toHost != [])
              && (l.toHost != [] ==>
                    var reply := NativeReply(command, AnswerTo(l.awaiting.value, Got(l.toHost[0])));
                    if reply.Ok? then ResultFits(command, reply.value) else command.Dispatch? && reply.error.Platform?)
  {
    var l := Run(steps);
    assert SetsNoTheme(steps);
    RunKeepsInv(steps);
    CallFailsOnlyWithConnection(steps);
    OnlyOwnAnswers(steps);
    if forall k :: 0 <= k < |steps| ==> !Sends(steps[k], l.asked) {
      AskedWasSent(steps, l.asked);
    }
    var command :| l.asked == CoreRequest(command);
    if l.toHost != [] { AnswerFits(command, l.toHost[0].payload); }
  }

  // -------------------------------------------- a client that sets the theme

  lemma RunAppend(steps: seq<Step>, step: Step)
    ensures Run(steps + [step]) == Next(Run(steps), step)
  {
    assert (steps + [step])[..|steps|] == steps;
  }

  function ThemeAnswered(flavor: ThemeFlavor): seq<Step> {
    [HostConnects] + [HostSends(Control(SetTheme(flavor)))] + [CoreHandles(Control(SetThemeResult))]
  }

  lemma ThemeAnsweredState(flavor: ThemeFlavor)
    ensures var (setting, done) := (Control(SetTheme(flavor)), Control(SetThemeResult));
            var log := [Asked(1, setting), Answered(1, setting, done)];
            Run(ThemeAnswered(flavor))
            == Link(true, true, [], [Response(1, 1, "core", "native-host", done)], Some(1), setting, [flavor], 0, 2, log)
  {
    var setting := Control(SetTheme(flavor));
    RunAppend([], HostConnects);
    assert [] + [HostConnects] == [HostConnects];
    RunAppend([HostConnects], HostSends(setting));
    RunAppend([HostConnects] + [HostSends(setting)], CoreHandles(Control(SetThemeResult)));
  }

  /** Set the theme, take the answer, and be sent the event. */
  function ThemeDialogue(flavor: ThemeFlavor): seq<Step> {
    ThemeAnswered(flavor) + [HostReceives] + [CoreForwardsTheme]
  }

  lemma ThemeDialogueState(flavor: ThemeFlavor)
    ensures var l := Run(ThemeDialogue(flavor));
            && l.connected && l.coreOpen && l.awaiting == None && l.toHost == [ThemeEvent(flavor)] && l.nextRequestId == 2
            && |l.log| == 3 && l.log[2] == Taken(1, Control(SetThemeResult))
  {
    ThemeAnsweredState(flavor);
    RunAppend(ThemeAnswered(flavor), HostReceives);
    RunAppend(ThemeAnswered(flavor) + [HostReceives], CoreForwardsTheme);
  }

  /** A client that does set the theme, which the native host never does: its request succeeds, and the event that follows
      is read for the answer to its next one. */
  lemma SettingThemeDropsNextCall(flavor: ThemeFlavor, request: CorePayload)
    ensures var before := ThemeDialogue(flavor);
            var l := Run(before + [HostSends(request)] + [HostReceives]);
            && Run(before).connected && l.log == Run(before).log + [Asked(2, request), Dropped(2)]
            && !l.connected
  {
    var before := ThemeDialogue(flavor);
    ThemeDialogueState(flavor);
    RunAppend(before, HostSends(request));
    RunAppend(before + [HostSends(request)], HostReceives);
  }

  // ------------------------------------- the session's call on that link

  predicate IsCoreStep(step: Step) {
    step.CoreHandles? || step.CoreFails? || step.CoreForwardsTheme? || step.CoreLags?
  }

  /** What the core does leaves the call as it is. */
  lemma {:induction false} CoreStepsKeepCall(l: Link, steps: seq<Step>)
    requires forall k :: 0 <= k < |steps| ==> IsCoreStep(steps[k])
    ensures var l' := RunFrom(l, steps); l'.awaiting == l.awaiting && l'.asked == l.asked && l'.connected == l.connected
  {
    if steps != [] {
      CoreStepsKeepCall(l, steps[..|steps| - 1]);
    }
  }

  function Incoming(frames: seq<CoreFrame>): (r: seq<Received<CorePayload>>)
    ensures |r| == |frames| && forall k :: 0 <= k < |r| ==> r[k] == Got(frames[k])
  {
    seq(|frames|, k requires 0 <= k < |frames| => Got(frames[k]))
  }

  /** The session's check of what it receives is the link's receive. */
  lemma ReceiveIsLinkReceive(l: Link, id: nat, c: CoreConnection)
    requires l.connected && l.awaiting == Some(id)
    requires l.toHost != [] || !l.coreOpen
    requires c.inbox == Incoming(l.toHost)
    ensures var (c', received) := c.Receive();
            var l' := Next(l, HostReceives);
            && (l'.connected <==> Succeeds(l.asked, AnswerTo(id, received)))
            && (l'.connected ==> l'.log == l.log + [Taken(id, AnswerTo(id, received).value)] && c'.inbox == Incoming(l'.toHost))
  {
    if l.toHost != [] {
      assert c.inbox[1..] == Incoming(l.toHost[1..]);
    }
  }

  /** The exchange the session's two calls make is the link's send, whatever the core does then, and its receive:
      the same frame goes out, the call succeeds exactly when the connection survives, and it returns what was taken. */
  lemma ExchangeIsSendThenReceive(l: Link, request: CorePayload, steps: seq<Step>, c: CoreConnection)
    requires l.connected && l.awaiting == None
    requires forall k :: 0 <= k < |steps| ==> IsCoreStep(steps[k])
    requires var l1 := RunFrom(Next(l, HostSends(request)), steps);
             && (l1.toHost != [] || !l1.coreOpen)
             && c.inbox == Incoming(l1.toHost)
             && c.Send(Request(l.nextRequestId, 1, "native-host", "core", request)).1
    ensures var frame := Request(l.nextRequestId, 1, "native-host", "core", request);
            var (c', answer) := Exchange(c, frame);
            var l1 := RunFrom(Next(l, HostSends(request)), steps);
            var l2 := Next(l1, HostReceives);
            && c'.sent == c.sent + [frame] && Next(l, HostSends(request)).toCore == l.toCore + [frame]
            && (l2.connected <==> Succeeds(request, answer))
            && (l2.connected ==> l2.log == l1.log + [Taken(l.nextRequestId, answer.value)] && c'.inbox == Incoming(l2.toHost))
  {
    var l0 := Next(l, HostSends(request));
    var frame := Request(l.nextRequestId, 1, "native-host", "core", request);
    CoreStepsKeepCall(l0, steps);
    ReceiveIsLinkReceive(RunFrom(l0, steps), l.nextRequestId, c.Send(frame).0);
  }

  /** A send that fails is the link's failing send: the session drops the connection, one id used up. */
  lemma FailedExchangeIsFailedSend(l: Link, request: CorePayload, c: CoreConnection)
    requires l.connected && l.awaiting == None
    requires !c.Send(Request(l.nextRequestId, 1, "native-host", "core", request)).1
    ensures var (c', answer) := Exchange(c, Request(l.nextRequestId, 1, "native-host", "core", request));
            var l' := Next(l, HostSendFails(request));
            && !Succeeds(request, answer) && !l'.connected
            && l'.nextRequestId == l.nextRequestId + 1
            && c'.sent == c.sent
  {
  }
}
