/** The core's side of a frontend connection: each frame served on the approvals, the workers and the theme,
    and what a native command comes to when it is. */
module CoreService {
  import opened Basics
  import opened FrontendProtocol
  import opened Ipc
  import opened NativeSession
  import A = Approval
  import F = FrontendDispatch
  import W = WorkerManager

  /** What serving a payload does to the approvals. */
  function ApprovalsAfter(s: A.Store, payload: CorePayload, now: nat): A.Store {
    if !payload.Control? then s
    else
      match payload.message
      case ListPendingApprovals => A.SweepIn(s, now)
      case ApprovePendingApproval(id) => A.ApproveIn(s, id, now)
      case RejectPendingApproval(id) => A.RejectIn(s, id, now)
      case _ => s
  }

  /** The pending records as a listing shows them. */
  ghost predicate Lists(approvals: seq<A.PendingApproval>, m: A.Entries, now: nat) {
    exists ids ::
      && A.IsListing(ids, A.ExpireAll(m, now)) && |approvals| == |ids|
      && forall k :: 0 <= k < |ids| ==> ids[k] in m && approvals[k] == A.Summary(m[ids[k]])
  }

  /** What a dispatch payload is answered. */
  function ServedDispatch(payload: CorePayload, permissions: F.Permissions, manifests: map<string, W.WorkerManifest>, active: W.ActiveWorkers,
                    nextRequestId: nat, writable: bool, startup: W.Startup, child: W.ChildId, now: nat): FrontendDispatchResponse
    requires payload.DispatchRequest?
  {
    F.Answer(permissions, manifests, active, nextRequestId, payload.appId, payload.call, payload.payload, writable, startup, child, now)
  }

  class Core {
    const approvals: A.ApprovalStore
    const dispatcher: F.Dispatcher
    const socketPath: string
    var theme: ThemeFlavor
    /** The theme changes broadcast so far. */
    var broadcast: seq<ThemeFlavor>

    ghost predicate Valid()
      reads this, dispatcher, dispatcher.manager, dispatcher.manager.registry, dispatcher.manager.processes
    {
      dispatcher.Valid()
    }

    constructor (approvals: A.ApprovalStore, dispatcher: F.Dispatcher, socketPath: string, theme: ThemeFlavor)
      requires dispatcher.Valid()
      ensures Valid() && this.approvals == approvals && this.dispatcher == dispatcher
      ensures this.socketPath == socketPath && this.theme == theme && broadcast == []
    {
      this.approvals := approvals;
      this.dispatcher := dispatcher;
      this.socketPath := socketPath;
      this.theme := theme;
      broadcast := [];
    }

    /** switches: whether the theme files can be switched. None ends the connection. */
    method ServeControl(message: ControlMessage, switches: bool, now: nat) returns (reply: Option<ControlMessage>)
      modifies this, approvals
      ensures approvals.Contents() == ApprovalsAfter(old(approvals.Contents()), Control(message), now)
      ensures reply.Some? <==> Served(Control(message)) && (message.SetTheme? ==> switches)
      ensures reply.Some? ==> ControlAnswers(message, reply.value)
      ensures message.Status? ==> reply == Some(StatusResult(|dispatcher.manager.registry.workers|, socketPath, true))
      ensures message.ListPendingApprovals? ==>
                reply.Some? && reply.value.PendingApprovalsResult? && Lists(reply.value.approvals, old(approvals.entries), now)
      ensures message.GetTheme? ==> reply == Some(GetThemeResult(old(theme)))
      ensures theme == (if message.SetTheme? && switches then message.flavor else old(theme))
      ensures broadcast == old(broadcast) + (if message.SetTheme? && switches then [message.flavor] else [])
    {
      match message {
        case Ping =>
          return Some(ControlMessage.Pong);
        case Status =>
          return Some(StatusResult(|dispatcher.manager.registry.workers|, socketPath, true));
        case ListPendingApprovals =>
          var listed, ids := approvals.ListPending(now);
          return Some(PendingApprovalsResult(listed));
        case ApprovePendingApproval(approvalId) =>
          approvals.Approve(approvalId, now);
          return Some(ApprovalDecisionResult);
        case RejectPendingApproval(approvalId) =>
          approvals.Reject(approvalId, now);
          return Some(ApprovalDecisionResult);
        case GetTheme =>
          return Some(GetThemeResult(theme));
        case SetTheme(flavor) =>
          if !switches {
            return None;
          }
          theme := flavor;
          broadcast := broadcast + [flavor];
          return Some(SetThemeResult);
        case _ =>
          return None;
      }
    }

    /** A frame from a frontend; None ends the connection. */
    method ServeFrame(frame: CoreFrame, switches: bool, writable: bool, startup: W.Startup, now: nat) returns (response: Option<CoreFrame>)
      requires Valid()
      modifies this, approvals, dispatcher, dispatcher.manager, dispatcher.manager.registry, dispatcher.manager.processes
      ensures Valid()
      ensures response.Some? <==> frame.Request? && Served(frame.payload) && (SetsTheme(frame.payload) ==> switches)
      ensures response.Some? ==>
                && response.value.Response?
                && response.value == Response(frame.requestId, frame.sessionId, TargetOrCore(frame.target), frame.source, response.value.payload)
                && Answers(frame.payload, response.value.payload)
      ensures approvals.Contents() == if frame.Request? then ApprovalsAfter(old(approvals.Contents()), frame.payload, now)
                                      else old(approvals.Contents())
      ensures frame.Request? && frame.payload.Control? && frame.payload.message.ListPendingApprovals? ==>
                Lists(response.value.payload.message.approvals, old(approvals.entries), now)
      ensures frame.Request? && frame.payload.DispatchRequest? ==>
                response.value.payload == DispatchResult(ServedDispatch(frame.payload, dispatcher.permissions, dispatcher.manager.manifests,
                  old(dispatcher.manager.activeWorkers), old(dispatcher.manager.nextRequestId), writable, startup,
                  old(dispatcher.manager.processes.spawned), now))
      ensures dispatcher.trace == old(dispatcher.trace) + if frame.Request? && frame.payload.DispatchRequest?
                then F.Effects(dispatcher.permissions, frame.payload.appId, frame.payload.call, writable) else []
    {
      if !frame.Request? {
        return None;
      }
      var reply: CorePayload;
      match frame.payload {
        case Control(message) =>
          var answer := ServeControl(message, switches, now);
          if answer == None {
            return None;
          }
          reply := Control(answer.value);
        case DispatchRequest(appId, call, payload) =>
          var answer := dispatcher.HandleRequest(appId, call, payload, writable, startup, now);
          reply := DispatchResult(answer);
        case _ =>
          return None;
      }
      return Some(Response(frame.requestId, frame.sessionId, TargetOrCore(frame.target), frame.source, reply));
    }
  }

  /** Serving a frame is the core's step on the link: the same response, and the same theme change to be forwarded. */
  lemma ServedIsHandled(l: Link, reply: CorePayload)
    requires l.coreOpen && l.toCore != [] && l.toCore[0].Request? && Answers(l.toCore[0].payload, reply)
    ensures var frame, l' := l.toCore[0], Next(l, CoreHandles(reply));
            && l'.toHost == l.toHost + [Response(frame.requestId, frame.sessionId, TargetOrCore(frame.target), frame.source, reply)]
            && l'.pending == l.pending + (if SetsTheme(frame.payload) then [frame.payload.message.flavor] else [])
            && l'.coreOpen
  {
  }

  // ------------------------------------------------- what a command comes to

  /** Of a stored record the decision changed nothing but, being overdue or removed, whether it is there. */
  ghost predicate KeptOrOverdue(s: A.Store, s': A.Store, id: string, now: nat) {
    && (id in s'.entries ==> id in s.entries && s'.entries[id] == s.entries[id])
    && (id in s.entries && id !in s'.entries ==>
          s.entries[id].state == A.Expired || (s.entries[id].state == A.Pending && now >= s.entries[id].createdAt + 60_000_000_000))
  }

  lemma DecisionOnStore(s: A.Store, payload: CorePayload, now: nat, id: string)
    requires A.StoreInv(s)
    ensures var s' := ApprovalsAfter(s, payload, now);
            && (payload == Control(RejectPendingApproval(id)) ==> id !in s'.entries)
            && (payload == Control(ApprovePendingApproval(id)) ==>
                  && (id in s'.entries <==> id in s.entries)
                  && (id in s.entries ==> s'.entries[id] == s.entries[id].(state := A.Approved)))
            && (payload != Control(RejectPendingApproval(id)) && payload != Control(ApprovePendingApproval(id)) ==> KeptOrOverdue(s, s', id, now))
  {
  }

  /** Listing and deciding leave approved records and requests still within their sixty seconds, nothing else. */
  lemma ServingSweeps(s: A.Store, payload: CorePayload, now: nat, id: string)
    requires A.StoreInv(s) && payload.Control?
    requires payload.message.ListPendingApprovals? || payload.message.ApprovePendingApproval? || payload.message.RejectPendingApproval?
    requires id in ApprovalsAfter(s, payload, now).entries
    ensures var r := ApprovalsAfter(s, payload, now).entries[id];
            r.state == A.Approved || (r.state == A.Pending && now < r.createdAt + 60_000_000_000)
  {
  }

  /** What a native command does to the approvals of a running core: rejecting takes the named record away; approving makes it
      usable by its own app for its own command at any later time; no command approves, rejects or changes any other. */
  lemma CommandDecides(calls: seq<A.Call>, command: NativeCommand, now: nat, id: string, later: nat)
    ensures var s := A.PerformAll(A.EMPTY, calls);
            var s' := ApprovalsAfter(s, CoreRequest(command), now);
            && (command == ApprovalReject(id) ==> id !in s'.entries)
            && (command == ApprovalApprove(id) ==>
                  && (id in s'.entries <==> id in s.entries)
                  && (id in s.entries ==>
                        var r := s.entries[id];
                        s'.entries[id].state == A.Approved
                        && A.ConsumeIn(s', id, r.appId, r.capability, r.command, later).1 == None))
            && (command != ApprovalReject(id) && command != ApprovalApprove(id) ==> KeptOrOverdue(s, s', id, now))
            && (!command.ApprovalReject? && !command.ApprovalApprove? && !command.ApprovalsList? ==> s' == s)
            && ((command.ApprovalReject? || command.ApprovalApprove? || command.ApprovalsList?) && id in s'.entries ==>
                  var r := s'.entries[id];
                  r.state == A.Approved || (r.state == A.Pending && now < r.createdAt + 60_000_000_000))
  {
    A.RunsKeepInv(calls);
    var s := A.PerformAll(A.EMPTY, calls);
    DecisionOnStore(s, CoreRequest(command), now, id);
    if (command.ApprovalReject? || command.ApprovalApprove? || command.ApprovalsList?) && id in ApprovalsAfter(s, CoreRequest(command), now).entries {
      ServingSweeps(s, CoreRequest(command), now, id);
    }
    if id in s.entries { A.ApproveThenConsume(s, id, now, later); }
  }

  /** The word a frontend is given for a failed dispatch. */
  predicate Names(code: string, e: W.CoreError) {
    match e
    case AppNotFound => code == "app_not_found"
    case WorkerStartFailed => code == "worker_start_failed"
    case WorkerStartTimeout => code == "worker_start_timeout"
    case WorkerUnavailable => code == "worker_unavailable"
    case DispatchIpcError => code == "dispatch_ipc_error"
    case UnexpectedWorkerResponse => code == "unexpected_worker_response"
    case InvalidWorkerFrame => code == "core_error"
    case WorkerSdk => code == "core_error"
    case Ipc => code == "core_error"
    case AcceptFailed => code == "core_error"
  }

  /** A dispatch from native command to worker and back: refused under the name of its fault, or answered with exactly what the
      dispatch of this call with this payload to this app's worker yields. */
  lemma NativeDispatchComesBack(appId: string, call: string, payload: Content, permissions: F.Permissions, manifests: map<string, W.WorkerManifest>,
                                active: W.ActiveWorkers, nextRequestId: nat, writable: bool, startup: W.Startup, child: W.ChildId, now: nat)
    ensures var command := NativeCommand.Dispatch(appId, call, payload);
            && CoreRequest(command).DispatchRequest?
            && CoreRequest(command).appId == appId && CoreRequest(command).call == call && CoreRequest(command).payload == payload
            && var response := ServedDispatch(CoreRequest(command), permissions, manifests, active, nextRequestId, writable, startup, child, now);
               var reply := NativeReply(command, Ok(DispatchResult(response)));
               if appId == "" || call == "" then reply == Err(Platform("invalid_request"))
               else if !writable then reply == Err(Platform("core_error"))
               else if appId !in permissions then reply == Err(Platform("app_not_found"))
               else if call !in permissions[appId] then reply == Err(Platform("permission_denied"))
               else
                 match W.DispatchWithStartStep(active, nextRequestId, manifests, appId, call, payload, startup, child, now).result
                 case Ok(Done(result)) => reply == Ok(NativeResult.Dispatch(result))
                 case Ok(AppError(code, message)) => reply == Ok(DispatchError(code, message))
                 case Err(e) => reply.Err? && reply.error.Platform? && Names(reply.error.code, e)
  {
  }

  /** What the core reports of itself reaches the native client unchanged. */
  lemma ReportsComeBack(approvals: seq<A.PendingApproval>, workerCount: nat, socketPath: string)
    ensures CoreRequest(NativeCommand.Status) == Control(ControlMessage.Status)
    ensures NativeReply(NativeCommand.Status, Ok(Control(StatusResult(workerCount, socketPath, true))))
         == Ok(NativeResult.Status(workerCount, socketPath, true))
    ensures CoreRequest(ApprovalsList) == Control(ListPendingApprovals)
    ensures NativeReply(ApprovalsList, Ok(Control(PendingApprovalsResult(approvals)))) == Ok(PendingApprovals(approvals))
  {
  }
}
