/** The worker's side of the protocol, and both sides joined by one connection. */
module WorkerClient {
  import opened Basics
  import opened Ipc
  import opened WorkerRegistry
  import opened WorkerManager

  datatype SdkError = IpcFailed | ConnectionClosed | Protocol | Decode

  datatype DispatchContext = DispatchContext(requestId: nat, sessionId: nat, source: string, target: string, request: DispatchWorkerRequest)

  function ContextOf(received: Received<WorkerPayload>): Result<DispatchContext, SdkError> {
    match received
    case Broken => Err(IpcFailed)
    case Closed => Err(ConnectionClosed)
    case Got(frame) =>
      if !frame.Request? then Err(Protocol)
      else if frame.payload == None then Err(Decode)
      else if !frame.payload.value.DispatchWorker? then Err(Protocol)
      else Ok(DispatchContext(frame.requestId, frame.sessionId, frame.source, frame.target, frame.payload.value.request))
  }

  function ReplyFrame(context: DispatchContext, result: DispatchResult): WorkerFrame {
    Response(context.requestId, context.sessionId, context.target, context.source, Some(DispatchWorkerResult(result)))
  }

  function RegistrationAnswer(answer: Result<WorkerPayload, ExchangeError>): Result<RegisterWorkerResponse, SdkError> {
    match answer
    case Err(SendFailed) => Err(IpcFailed)
    case Err(ReceiveFailed) => Err(IpcFailed)
    case Err(PeerClosed) => Err(ConnectionClosed)
    case Err(NotAResponse) => Err(Protocol)
    case Err(WrongId) => Err(Protocol)
    case Ok(None) => Err(Decode)
    case Ok(Some(RegisterWorkerAccepted(response))) => Ok(response)
    case Ok(Some(_)) => Err(Protocol)
  }

  class Client {
    var connection: WorkerConnection
    const workerEndpoint: string
    const sessionId: nat
    var nextRequestId: nat

    constructor (connection: WorkerConnection, workerId: WorkerId, sessionId: nat)
      ensures this.connection == connection && workerEndpoint == "worker:" + workerId
      ensures this.sessionId == sessionId && nextRequestId == 1
    {
      this.connection := connection;
      workerEndpoint := "worker:" + workerId;
      this.sessionId := sessionId;
      nextRequestId := 1;
    }

    method Register(request: RegisterWorkerRequest) returns (r: Result<RegisterWorkerResponse, SdkError>)
      modifies this
      ensures nextRequestId == old(nextRequestId) + 1
      ensures var frame := Request(old(nextRequestId), sessionId, workerEndpoint, "core", Some(RegisterWorker(request)));
              var (c, answer) := Exchange(old(connection), frame);
              connection == c && r == RegistrationAnswer(answer)
    {
      var requestId := nextRequestId;
      nextRequestId := nextRequestId + 1;
      var (sending, sent) := connection.Send(Request(requestId, sessionId, workerEndpoint, "core", Some(RegisterWorker(request))));
      connection := sending;
      if !sent {
        return Err(IpcFailed);
      }
      var (receiving, received) := connection.Receive();
      connection := receiving;
      r := RegistrationAnswer(AnswerTo(requestId, received));
    }

    method RecvDispatch() returns (r: Result<DispatchContext, SdkError>)
      modifies this`connection
      ensures connection == old(connection).Receive().0
      ensures r == ContextOf(old(connection).Receive().1)
    {
      var (c, received) := connection.Receive();
      connection := c;
      match received {
        case Broken => return Err(IpcFailed);
        case Closed => return Err(ConnectionClosed);
        case Got(frame) =>
          if !frame.Request? {
            return Err(Protocol);
          }
          if frame.payload == None {
            return Err(Decode);
          }
          if !frame.payload.value.DispatchWorker? {
            return Err(Protocol);
          }
          return Ok(DispatchContext(frame.requestId, frame.sessionId, frame.source, frame.target, frame.payload.value.request));
      }
    }

    method RespondDispatch(context: DispatchContext, result: DispatchResult) returns (ok: bool)
      modifies this`connection
      ensures (connection, ok) == old(connection).Send(ReplyFrame(context, result))
    {
      var (c, sent) := connection.Send(ReplyFrame(context, result));
      connection := c;
      ok := sent;
    }
  }

  /** What a worker is given of a dispatch, and what goes back: its own request, under the same ids, the ends swapped. */
  lemma DispatchReachesWorker(w: ActiveWorker, requestId: nat, appId: AppId, call: string, payload: Content, result: DispatchResult)
    ensures var received := ContextOf(Got(DispatchFrame(w, requestId, appId, call, payload)));
            && received == Ok(DispatchContext(requestId, 1, "core", "worker:" + w.workerId, DispatchWorkerRequest(appId, call, payload)))
            && ReplyFrame(received.value, result)
               == Response(requestId, 1, "worker:" + w.workerId, "core", Some(DispatchWorkerResult(result)))
  {
  }

  /** Exactly a request to dispatch is taken for one; anything else is an error of its own kind. */
  lemma ReceiveErrors(received: Received<WorkerPayload>)
    ensures var r := ContextOf(received);
            && (r == Err(ConnectionClosed) <==> received.Closed?)
            && (r == Err(IpcFailed) <==> received.Broken?)
            && (r == Err(Decode) <==> received.Got? && received.frame.Request? && received.frame.payload == None)
            && (r.Ok? <==> received.Got? && received.frame.Request? && received.frame.payload.Some? && received.frame.payload.value.DispatchWorker?)
            && (r.Ok? ==> r.value.requestId == received.frame.requestId && r.value.request == received.frame.payload.value.request)
            && (r.Err? ==> r.error in {ConnectionClosed, IpcFailed, Decode, Protocol})
  {
  }

  /** A registration is taken for accepted exactly on a response to it that carries an acceptance. */
  lemma RegistrationAnswers(requestId: nat, received: Received<WorkerPayload>)
    ensures var r := RegistrationAnswer(AnswerTo(requestId, received));
            && (r.Ok? <==>
                  && received.Got? && received.frame.Response? && received.frame.requestId == requestId
                  && received.frame.payload.Some? && received.frame.payload.value.RegisterWorkerAccepted?)
            && (r.Ok? ==> r.value == received.frame.payload.value.response)
            && (r == Err(ConnectionClosed) <==> received.Closed?)
            && (r == Err(IpcFailed) <==> received.Broken?)
            && (r == Err(Decode) <==>
                  received.Got? && received.frame.Response? && received.frame.requestId == requestId && received.frame.payload == None)
  {
  }

  // ------------------------------------------------- core and worker joined

  datatype Entry =
    | Sent(id: nat, request: DispatchWorkerRequest)
    | Received(id: nat, request: DispatchWorkerRequest)
    | Replied(id: nat, result: DispatchResult)
    | Finished(id: nat, outcome: Result<DispatchResult, CoreError>)

  /** One connection in flight, the context the worker works on, and the id the core waits for.
      open: the core still holds the connection; gone: the worker has left it. */
  datatype Link = Link(
    open: bool,
    gone: bool,
    toWorker: seq<WorkerFrame>,
    toCore: seq<WorkerFrame>,
    context: Option<DispatchContext>,
    awaiting: Option<nat>,
    nextRequestId: nat,
    log: seq<Entry>)

  /** Between dispatches the core may drop the worker (idle, or replaced), and a worker may register, on a fresh
      connection that takes the place of any there was. */
  datatype Step =
    | CoreSends(w: ActiveWorker, request: DispatchWorkerRequest)
    | CoreSendFails
    | WorkerReceives
    | WorkerReplies(result: DispatchResult)
    | WorkerLeaves
    | CoreReceives
    | CoreReceiveFails
    | CoreDropsWorker
    | WorkerRegisters

  function Joined(firstId: nat): Link {
    Link(true, false, [], [], None, None, firstId, [])
  }

  function Drop(l: Link): Link {
    l.(open := false, toWorker := [], toCore := [], context := None)
  }

  /** The core ends a dispatch; a failed one costs the worker its connection. */
  function Finish(l: Link, outcome: Result<DispatchResult, CoreError>): Link
    requires l.awaiting.Some?
  {
    var l' := l.(awaiting := None, log := l.log + [Finished(l.awaiting.value, outcome)]);
    if outcome.Ok? then l' else Drop(l')
  }

  /** A step that is not possible leaves the link as it is. */
  function Next(l: Link, step: Step): Link {
    match step
    case CoreSends(w, request) =>
      if !l.open || l.awaiting != None then l
      else
        var id := l.nextRequestId;
        l.(toWorker := l.toWorker + [DispatchFrame(w, id, request.appId, request.call, request.payload)],
           awaiting := Some(id), nextRequestId := id + 1, log := l.log + [Sent(id, request)])
    case CoreSendFails =>
      if !l.open || l.awaiting != None then l
      else
        Finish(l.(awaiting := Some(l.nextRequestId), nextRequestId := l.nextRequestId + 1), DispatchAnswer(Err(SendFailed)))
    case WorkerReceives =>
      if l.gone || l.context != None || l.toWorker == [] then l
      else
        var received := ContextOf(Got(l.toWorker[0]));
        if received.Err? then l.(toWorker := l.toWorker[1..])
        else
          l.(toWorker := l.toWorker[1..], context := Some(received.value),
             log := l.log + [Received(received.value.requestId, received.value.request)])
    case WorkerReplies(result) =>
      if l.gone || l.context == None then l
      else
        l.(toCore := l.toCore + [ReplyFrame(l.context.value, result)], context := None,
           log := l.log + [Replied(l.context.value.requestId, result)])
    case WorkerLeaves => l.(gone := true, context := None)
    case CoreReceives =>
      if l.awaiting == None || (l.toCore == [] && !l.gone) then l
      else
        var received := if l.toCore == [] then Closed else Got(l.toCore[0]);
        Finish(l.(toCore := if l.toCore == [] then [] else l.toCore[1..]), DispatchAnswer(AnswerTo(l.awaiting.value, received)))
    case CoreReceiveFails =>
      if l.awaiting == None then l else Finish(l, DispatchAnswer(AnswerTo(l.awaiting.value, Broken)))
    case CoreDropsWorker =>
      if l.awaiting != None then l else Drop(l)
    case WorkerRegisters =>
      if l.awaiting != None then l else Drop(l).(open := true, gone := false)
  }

  function Run(l: Link, steps: seq<Step>): Link {
    if steps == [] then l else Next(Run(l, steps[..|steps| - 1]), steps[|steps| - 1])
  }

  /** The entry at k ends a dispatch: with the result replied to this id and request, received by the worker
      as sent; or with a broken connection, never with a wrong answer. */
  ghost predicate Exact(log: seq<Entry>, k: nat)
    requires k < |log|
  {
    log[k].Finished? ==>
      match log[k].outcome
      case Ok(result) =>
        && k >= 3
        && log[k - 1] == Replied(log[k].id, result)
        && log[k - 2].Received? && log[k - 2].id == log[k].id
        && log[k - 3] == Sent(log[k].id, log[k - 2].request)
      case Err(e) => e == DispatchIpcError
  }

  ghost predicate SentIdsIncrease(l: Link) {
    && (forall k :: 0 <= k < |l.log| && l.log[k].Sent? ==> l.log[k].id < l.nextRequestId)
    && (forall j, k :: 0 <= j < k < |l.log| && l.log[j].Sent? && l.log[k].Sent? ==> l.log[j].id < l.log[k].id)
  }

  /** The request waits to be received. */
  ghost predicate RequestUnderWay(l: Link, id: nat) {
    var n := |l.log|;
    && n >= 1 && l.log[n - 1].Sent? && l.log[n - 1].id == id
    && l.toCore == [] && l.context == None && |l.toWorker| == 1
    && ContextOf(Got(l.toWorker[0])).Ok?
    && ContextOf(Got(l.toWorker[0])).value.requestId == id
    && ContextOf(Got(l.toWorker[0])).value.request == l.log[n - 1].request
  }

  /** The worker works on it. */
  ghost predicate ContextHeld(l: Link, id: nat) {
    var n := |l.log|;
    && n >= 2 && l.log[n - 1].Received? && l.log[n - 2] == Sent(id, l.log[n - 1].request) && l.log[n - 1].id == id
    && l.toCore == [] && l.toWorker == [] && l.context.Some? && l.context.value.requestId == id
  }

  /** The reply waits to be received. */
  ghost predicate ReplyUnderWay(l: Link, id: nat) {
    var n := |l.log|;
    && n >= 3 && l.log[n - 2].Received? && l.log[n - 3] == Sent(id, l.log[n - 2].request) && l.log[n - 2].id == id
    && l.log[n - 1].Replied? && l.log[n - 1].id == id
    && l.toWorker == [] && l.context == None && |l.toCore| == 1
    && DispatchAnswer(AnswerTo(id, Got(l.toCore[0]))) == Ok(l.log[n - 1].result)
  }

  /** Between dispatches nothing is under way; during one, exactly one of request, context and reply is,
      or nothing will come because the worker has left. */
  ghost predicate Inv(l: Link) {
    && (forall k :: 0 <= k < |l.log| ==> Exact(l.log, k))
    && SentIdsIncrease(l)
    && match l.awaiting
       case None => l.toWorker == [] && l.toCore == [] && l.context == None
       case Some(id) =>
         && l.open
         && (|| RequestUnderWay(l, id)
             || ContextHeld(l, id)
             || ReplyUnderWay(l, id)
             || (l.gone && l.toCore == [] && l.context == None))
  }

  lemma LogGrows(log: seq<Entry>, e: Entry)
    requires forall k :: 0 <= k < |log| ==> Exact(log, k)
    requires Exact(log + [e], |log|)
    ensures forall k :: 0 <= k < |log + [e]| ==> Exact(log + [e], k)
  {
    forall k | 0 <= k < |log| ensures Exact(log + [e], k) {
      assert Exact(log, k);
    }
  }

  lemma FinishKeepsInv(l: Link, outcome: Result<DispatchResult, CoreError>)
    requires (forall k :: 0 <= k < |l.log| ==> Exact(l.log, k)) && SentIdsIncrease(l)
    requires l.awaiting.Some? && Exact(l.log + [Finished(l.awaiting.value, outcome)], |l.log|)
    requires outcome.Ok? ==> l.toWorker == [] && l.toCore == [] && l.context == None
    ensures Inv(Finish(l, outcome))
  {
    LogGrows(l.log, Finished(l.awaiting.value, outcome));
  }

  lemma SendKeepsInv(l: Link, w: ActiveWorker, request: DispatchWorkerRequest)
    requires Inv(l) && l.open && l.awaiting == None
    ensures Inv(Next(l, CoreSends(w, request)))
  {
    LogGrows(l.log, Sent(l.nextRequestId, request));
    assert RequestUnderWay(Next(l, CoreSends(w, request)), l.nextRequestId);
  }

  lemma WorkerKeepsInv(l: Link, step: Step)
    requires Inv(l) && (step.WorkerReceives? || step.WorkerReplies?)
    ensures Inv(Next(l, step))
  {
    var l' := Next(l, step);
    if l' != l {
      var id := l.awaiting.value;
      if step.WorkerReceives? {
        assert RequestUnderWay(l, id);
        LogGrows(l.log, l'.log[|l.log|]);
        assert ContextHeld(l', id);
      } else {
        assert ContextHeld(l, id);
        LogGrows(l.log, l'.log[|l.log|]);
        assert ReplyUnderWay(l', id);
      }
    }
  }

  lemma CoreReceivesKeepsInv(l: Link)
    requires Inv(l) && l.awaiting.Some? && (l.toCore != [] || l.gone)
    ensures Inv(Next(l, CoreReceives))
  {
    var id := l.awaiting.value;
    if l.toCore == [] {
      FinishKeepsInv(l, Err(DispatchIpcError));
    } else {
      assert ReplyUnderWay(l, id);
      assert l.toCore[1..] == [];
      FinishKeepsInv(l.(toCore := []), Ok(l.log[|l.log| - 1].result));
    }
  }

  lemma FailureKeepsInv(l: Link, step: Step)
    requires Inv(l) && (step.CoreSendFails? || step.CoreReceiveFails?)
    ensures Inv(Next(l, step))
  {
    if step.CoreSendFails? {
      if l.open && l.awaiting == None {
        FinishKeepsInv(l.(awaiting := Some(l.nextRequestId), nextRequestId := l.nextRequestId + 1), Err(DispatchIpcError));
      }
    } else if l.awaiting.Some? {
      FinishKeepsInv(l, Err(DispatchIpcError));
    }
  }

  lemma LeavingKeepsInv(l: Link)
    requires Inv(l)
    ensures Inv(Next(l, WorkerLeaves))
  {
    var l' := Next(l, WorkerLeaves);
    if l.awaiting.Some? {
      var id := l.awaiting.value;
      assert RequestUnderWay(l, id) ==> RequestUnderWay(l', id);
      assert ReplyUnderWay(l, id) ==> ReplyUnderWay(l', id);
    }
  }

  lemma NextKeepsInv(l: Link, step: Step)
    requires Inv(l)
    ensures Inv(Next(l, step))
  {
    match step
    case CoreSends(w, request) => if l.open && l.awaiting == None { SendKeepsInv(l, w, request); }
    case CoreSendFails => FailureKeepsInv(l, step);
    case WorkerReceives => WorkerKeepsInv(l, step);
    case WorkerReplies(_) => WorkerKeepsInv(l, step);
    case WorkerLeaves => LeavingKeepsInv(l);
    case CoreReceives => if l.awaiting.Some? && (l.toCore != [] || l.gone) { CoreReceivesKeepsInv(l); }
    case CoreReceiveFails => FailureKeepsInv(l, step);
    case CoreDropsWorker =>
    case WorkerRegisters =>
  }

  lemma {:induction false} RunKeepsInv(firstId: nat, steps: seq<Step>)
    ensures Inv(Run(Joined(firstId), steps))
  {
    if steps != [] {
      RunKeepsInv(firstId, steps[..|steps| - 1]);
      NextKeepsInv(Run(Joined(firstId), steps[..|steps| - 1]), steps[|steps| - 1]);
    }
  }

  /** Against a worker that uses the SDK's receive and respond pair, in every interleaving, with either side's
      connection failing anywhere and workers dropped and replaced between dispatches: a dispatch that ends with a
      result ends with the worker's reply to the request it received as sent; one that fails does so for a broken
      connection, never for a mismatched id or an unexpected answer; and no id is sent twice. */
  lemma RepliesMatchRequests(firstId: nat, steps: seq<Step>, k: nat)
    requires k < |Run(Joined(firstId), steps).log| && Run(Joined(firstId), steps).log[k].Finished?
    ensures var log := Run(Joined(firstId), steps).log;
            match log[k].outcome
            case Ok(result) =>
              && k >= 3
              && log[k - 1] == Replied(log[k].id, result)
              && log[k - 2].Received? && log[k - 2].id == log[k].id
              && log[k - 3] == Sent(log[k].id, log[k - 2].request)
              && forall j :: 0 <= j < |log| && j != k - 3 && log[j].Sent? ==> log[j].id != log[k].id
            case Err(e) => e == DispatchIpcError
  {
    RunKeepsInv(firstId, steps);
    assert Exact(Run(Joined(firstId), steps).log, k);
  }

  lemma DispatchFromIdle(l: Link, w: ActiveWorker, request: DispatchWorkerRequest, result: DispatchResult)
    requires l.open && !l.gone && l.awaiting == None && l.toWorker == [] && l.toCore == [] && l.context == None
    ensures var l' := Next(Next(Next(Next(l, CoreSends(w, request)), WorkerReceives), WorkerReplies(result)), CoreReceives);
            && l'.awaiting == None && l'.open
            && l'.log == l.log + [Sent(l.nextRequestId, request), Received(l.nextRequestId, request),
                                  Replied(l.nextRequestId, result), Finished(l.nextRequestId, Ok(result))]
  {
  }

  /** And a dispatch gets through: with both sides there, sent, received, replied to and accepted,
      it ends idle with that very result. */
  lemma DispatchCompletes(firstId: nat, steps: seq<Step>, w: ActiveWorker, request: DispatchWorkerRequest, result: DispatchResult)
    requires Run(Joined(firstId), steps).awaiting == None
    requires Run(Joined(firstId), steps).open && !Run(Joined(firstId), steps).gone
    ensures var l := Run(Joined(firstId), steps);
            var l' := Next(Next(Next(Next(l, CoreSends(w, request)), WorkerReceives), WorkerReplies(result)), CoreReceives);
            && l'.awaiting == None && l'.open
            && l'.log == l.log + [Sent(l.nextRequestId, request), Received(l.nextRequestId, request),
                                  Replied(l.nextRequestId, result), Finished(l.nextRequestId, Ok(result))]
  {
    RunKeepsInv(firstId, steps);
    DispatchFromIdle(Run(Joined(firstId), steps), w, request, result);
  }

  /** Registration across the connection: the core reads the request the worker sent, and the
      worker takes the core's acceptance for the answer to it, addressed to itself. */
  lemma RegistrationCompletes(requestId: nat, sessionId: nat, endpoint: string, request: RegisterWorkerRequest)
    ensures var frame := Request(requestId, sessionId, endpoint, "core", Some(RegisterWorker(request)));
            var acceptance := Acceptance(frame, request);
            && RegistrationOf(frame, None) == Ok(request)
            && RegistrationAnswer(AnswerTo(requestId, Got(acceptance))) == Ok(RegisterWorkerResponse(request.workerId, true, None))
            && acceptance.source == "core" && acceptance.target == endpoint
  {
  }
}
