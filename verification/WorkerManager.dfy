/** The broker's active workers: cold start, registration, dispatch, idle reaping, and the
    worker processes it owns. Times count milliseconds. */
module WorkerManager {
  import opened Basics
  import opened Ipc
  import opened WorkerRegistry

  type Content = string
  type ChildId = nat

  datatype DispatchWorkerRequest = DispatchWorkerRequest(appId: AppId, call: string, payload: Content)

  datatype DispatchResult = Done(payload: Content) | AppError(code: string, message: string)

  datatype WorkerMessage =
    | RegisterWorker(registration: RegisterWorkerRequest)
    | RegisterWorkerAccepted(response: RegisterWorkerResponse)
    | DispatchWorker(request: DispatchWorkerRequest)
    | DispatchWorkerResult(result: DispatchResult)

  /** None stands for bytes that decode to no worker message. */
  type WorkerPayload = Option<WorkerMessage>
  type WorkerFrame = Frame<WorkerPayload>
  type WorkerConnection = Connection<WorkerPayload>

  datatype CoreError =
    | AppNotFound
    | WorkerStartFailed
    | WorkerStartTimeout
    | WorkerUnavailable
    | DispatchIpcError
    | UnexpectedWorkerResponse
    | InvalidWorkerFrame
    | WorkerSdk
    | Ipc
    | AcceptFailed

  datatype ActiveWorker = ActiveWorker(
    workerId: WorkerId,
    connection: WorkerConnection,
    child: Option<ChildId>,
    lastUsedAt: nat,
    idleTimeout: nat)

  type ActiveWorkers = map<AppId, ActiveWorker>

  datatype WorkerManifest = WorkerManifest(idleTimeoutMs: nat)

  /** The idle timeout of workers that register by themselves. */
  const DEFAULT_IDLE_TIMEOUT_MS: nat := 300_000

  // ------------------------------------------------------------- dispatch

  function DispatchAnswer(answer: Result<WorkerPayload, ExchangeError>): Result<DispatchResult, CoreError> {
    match answer
    case Err(SendFailed) => Err(DispatchIpcError)
    case Err(ReceiveFailed) => Err(DispatchIpcError)
    case Err(PeerClosed) => Err(DispatchIpcError)
    case Err(NotAResponse) => Err(UnexpectedWorkerResponse)
    case Err(WrongId) => Err(UnexpectedWorkerResponse)
    case Ok(Some(DispatchWorkerResult(result))) => Ok(result)
    case Ok(_) => Err(UnexpectedWorkerResponse)
  }

  function DispatchFrame(w: ActiveWorker, requestId: nat, appId: AppId, call: string, payload: Content): WorkerFrame {
    Request(requestId, 1, "core", "worker:" + w.workerId, Some(DispatchWorker(DispatchWorkerRequest(appId, call, payload))))
  }

  datatype Dispatched = Dispatched(active: ActiveWorkers, nextRequestId: nat, result: Result<DispatchResult, CoreError>)

  function DispatchStep(active: ActiveWorkers, nextRequestId: nat, appId: AppId, call: string, payload: Content, now: nat): Dispatched {
    if call == "" then Dispatched(active, nextRequestId, Err(UnexpectedWorkerResponse))
    else if appId !in active then Dispatched(active, nextRequestId + 1, Err(WorkerUnavailable))
    else
      var w := active[appId];
      var (connection, answer) := Exchange(w.connection, DispatchFrame(w, nextRequestId, appId, call, payload));
      match DispatchAnswer(answer)
      case Ok(result) =>
        Dispatched(active[appId := w.(connection := connection, lastUsedAt := now)], nextRequestId + 1, Ok(result))
      case Err(e) => Dispatched(active - {appId}, nextRequestId + 1, Err(e))
  }

  /** The next frame the worker delivers answers the request with this id, with this result. */
  predicate Answers(c: WorkerConnection, requestId: nat, result: DispatchResult) {
    && c.inbox != []
    && c.inbox[0].Got?
    && c.inbox[0].frame.Response?
    && c.inbox[0].frame.requestId == requestId
    && c.inbox[0].frame.payload == Some(DispatchWorkerResult(result))
  }

  /** Against a worker that sends anything at all: a result is accepted exactly when it comes in a
      response that carries this dispatch's own id. Then the worker stays active, even if the result is
      an application error; after any other exchange it is gone. */
  lemma DispatchTrustsOwnResponse(active: ActiveWorkers, nextRequestId: nat, appId: AppId, call: string, payload: Content,
                                  now: nat, result: DispatchResult)
    ensures var d := DispatchStep(active, nextRequestId, appId, call, payload, now);
            && (d.result == Ok(result) <==>
                  && call != ""
                  && appId in active
                  && (active[appId].connection.sendResults == [] || active[appId].connection.sendResults[0])
                  && Answers(active[appId].connection, nextRequestId, result))
            && (d.result.Ok? ==> appId in d.active && d.active[appId].workerId == active[appId].workerId
                                 && d.active[appId].connection.sent
                                    == active[appId].connection.sent + [DispatchFrame(active[appId], nextRequestId, appId, call, payload)])
            && (d.result.Err? && call != "" ==> appId !in d.active)
            && (forall a :: a != appId ==> (a in d.active <==> a in active) && (a in active ==> d.active[a] == active[a]))
  {
  }

  /** How a dispatch fails: no method, no worker, a broken connection, or something else than the answer. */
  lemma DispatchErrors(active: ActiveWorkers, nextRequestId: nat, appId: AppId, call: string, payload: Content, now: nat)
    ensures var d := DispatchStep(active, nextRequestId, appId, call, payload, now);
            if call == "" then d == Dispatched(active, nextRequestId, Err(UnexpectedWorkerResponse))
            else if appId !in active then d == Dispatched(active, nextRequestId + 1, Err(WorkerUnavailable))
            else
              var c := active[appId].connection;
              var sendable := c.sendResults == [] || c.sendResults[0];
              && d.nextRequestId == nextRequestId + 1
              && (d.result == Err(DispatchIpcError) <==> !sendable || c.inbox == [] || !c.inbox[0].Got?)
              && (d.result == Err(UnexpectedWorkerResponse) <==>
                    sendable && c.inbox != [] && c.inbox[0].Got? && !exists result :: Answers(c, nextRequestId, result))
              && (d.result.Ok? || d.result == Err(DispatchIpcError) || d.result == Err(UnexpectedWorkerResponse))
  {
    if call != "" && appId in active {
      var c := active[appId].connection;
      if exists result :: Answers(c, nextRequestId, result) {
        var result :| Answers(c, nextRequestId, result);
        DispatchTrustsOwnResponse(active, nextRequestId, appId, call, payload, now, result);
      } else if DispatchStep(active, nextRequestId, appId, call, payload, now).result.Ok? {
        var result := DispatchStep(active, nextRequestId, appId, call, payload, now).result.value;
        DispatchTrustsOwnResponse(active, nextRequestId, appId, call, payload, now, result);
      }
    }
  }

  // --------------------------------------------------------- registration

  function RegistrationOf(frame: WorkerFrame, expected: Option<AppId>): Result<RegisterWorkerRequest, CoreError> {
    if !frame.Request? then Err(InvalidWorkerFrame)
    else if frame.payload == None then Err(WorkerSdk)
    else if !frame.payload.value.RegisterWorker? then Err(InvalidWorkerFrame)
    else
      var request := frame.payload.value.registration;
      if expected.Some? && (request.appId != expected.value || request.workerId != expected.value) then Err(UnexpectedWorkerResponse)
      else Ok(request)
  }

  function Acceptance(frame: WorkerFrame, request: RegisterWorkerRequest): WorkerFrame
    requires frame.Request?
  {
    Response(frame.requestId, frame.sessionId, TargetOrCore(frame.target), frame.source,
             Some(RegisterWorkerAccepted(RegisterWorkerResponse(request.workerId, true, None))))
  }

  /** The new worker takes the place of any worker active for its app or under its worker id. */
  function InsertStep(active: ActiveWorkers, request: RegisterWorkerRequest, w: ActiveWorker): ActiveWorkers {
    (map a | a in active && a != request.appId && active[a].workerId != request.workerId :: active[a])[request.appId := w]
  }

  function RegistrationStep(active: ActiveWorkers, frame: WorkerFrame, connection: WorkerConnection, child: Option<ChildId>,
                            idleTimeout: nat, expected: Option<AppId>, now: nat): (ActiveWorkers, Result<(), CoreError>) {
    match RegistrationOf(frame, expected)
    case Err(e) => (active, Err(e))
    case Ok(request) =>
      var (connection', sent) := connection.Send(Acceptance(frame, request));
      if !sent then (active, Err(Ipc))
      else (InsertStep(active, request, ActiveWorker(request.workerId, connection', child, now, idleTimeout)), Ok(()))
  }

  // ----------------------------------------------------------- cold start

  /** What the core sees while it waits for a started worker, in order; the end of the list is the timeout. */
  datatype Arrival = AcceptError | NoFrame | Candidate(frame: WorkerFrame, connection: WorkerConnection)

  datatype Startup = SpawnFails | Spawns(arrivals: seq<Arrival>)

  datatype Awaited = TimedOut | Failed | Matched(frame: WorkerFrame, connection: WorkerConnection)

  function FirstMatch(arrivals: seq<Arrival>, appId: AppId): Awaited {
    if arrivals == [] then TimedOut
    else
      match arrivals[0]
      case AcceptError => Failed
      case NoFrame => FirstMatch(arrivals[1..], appId)
      case Candidate(frame, connection) =>
        if RegistrationOf(frame, Some(appId)).Ok? then Matched(frame, connection) else FirstMatch(arrivals[1..], appId)
  }

  function StartStep(active: ActiveWorkers, manifests: map<AppId, WorkerManifest>, appId: AppId, startup: Startup, child: ChildId, now: nat)
    : (ActiveWorkers, Result<(), CoreError>)
  {
    if appId !in manifests then (active, Err(AppNotFound))
    else if startup == SpawnFails then (active, Err(WorkerStartFailed))
    else
      match FirstMatch(startup.arrivals, appId)
      case TimedOut => (active, Err(WorkerStartTimeout))
      case Failed => (active, Err(AcceptFailed))
      case Matched(frame, connection) =>
        RegistrationStep(active, frame, connection, Some(child), manifests[appId].idleTimeoutMs, Some(appId), now)
  }

  function Spawned(manifests: map<AppId, WorkerManifest>, appId: AppId, startup: Startup): nat {
    if appId in manifests && startup.Spawns? then 1 else 0
  }

  lemma {:induction false} MatchIsExpected(arrivals: seq<Arrival>, appId: AppId)
    requires FirstMatch(arrivals, appId).Matched?
    ensures RegistrationOf(FirstMatch(arrivals, appId).frame, Some(appId)).Ok?
    decreases arrivals
  {
    match arrivals[0]
    case NoFrame => MatchIsExpected(arrivals[1..], appId);
    case Candidate(frame, connection) =>
      if !RegistrationOf(frame, Some(appId)).Ok? { MatchIsExpected(arrivals[1..], appId); }
    case AcceptError =>
  }

  /** A cold start either leaves every worker as it was, or makes the app active under a worker id equal
      to its app id, owning the child just started. The mismatch errors cannot occur on this way in. */
  lemma StartOutcome(active: ActiveWorkers, manifests: map<AppId, WorkerManifest>, appId: AppId, startup: Startup, child: ChildId, now: nat)
    ensures var (active', result) := StartStep(active, manifests, appId, startup, child, now);
            && (result.Err? ==> active' == active
                                && result.error in {AppNotFound, WorkerStartFailed, WorkerStartTimeout, AcceptFailed, Ipc})
            && (result.Ok? ==> appId in active' && active'[appId].workerId == appId && active'[appId].child == Some(child))
  {
    if appId in manifests && startup.Spawns? && FirstMatch(startup.arrivals, appId).Matched? {
      MatchIsExpected(startup.arrivals, appId);
    }
  }

  lemma StartedTimeout(active: ActiveWorkers, manifests: map<AppId, WorkerManifest>, appId: AppId, startup: Startup, child: ChildId, now: nat)
    requires StartStep(active, manifests, appId, startup, child, now).1.Ok?
    ensures appId in manifests && startup.Spawns?
    ensures var active' := StartStep(active, manifests, appId, startup, child, now).0;
            appId in active' && active'[appId].idleTimeout == manifests[appId].idleTimeoutMs
  {
    MatchIsExpected(startup.arrivals, appId);
  }

  /** A candidate is the one waited for: a request to register this very app, under a worker id equal to the app's. */
  predicate RegistersAs(frame: WorkerFrame, appId: AppId) {
    && frame.Request? && frame.payload.Some? && frame.payload.value.RegisterWorker?
    && frame.payload.value.registration.appId == appId && frame.payload.value.registration.workerId == appId
  }

  /** Arrivals that do not end the wait: connections that show no frame or another's. */
  ghost predicate NotYet(arrivals: seq<Arrival>, appId: AppId) {
    forall k :: 0 <= k < |arrivals| ==>
      arrivals[k].NoFrame? || (arrivals[k].Candidate? && !RegistersAs(arrivals[k].frame, appId))
  }

  /** The wait ends with the first arrival that registers as the app, or with an accept error before that, or times out:
      silent connections and other workers' registrations do not fail it. */
  lemma {:induction false} WaitEnds(arrivals: seq<Arrival>, appId: AppId)
    ensures match FirstMatch(arrivals, appId)
            case Matched(frame, connection) =>
              RegistersAs(frame, appId) &&
              exists k :: 0 <= k < |arrivals| && NotYet(arrivals[..k], appId) && arrivals[k] == Candidate(frame, connection)
            case Failed => exists k :: 0 <= k < |arrivals| && NotYet(arrivals[..k], appId) && arrivals[k] == AcceptError
            case TimedOut => NotYet(arrivals, appId)
  {
    if arrivals != [] {
      var rest := arrivals[1..];
      if NotYet(arrivals[..1], appId) {
        WaitEnds(rest, appId);
        forall k | 0 <= k < |rest| && NotYet(rest[..k], appId) ensures NotYet(arrivals[..k + 1], appId) && arrivals[k + 1] == rest[k] {
          assert arrivals[..k + 1] == arrivals[..1] + rest[..k];
        }
        assert arrivals == arrivals[..1] + rest;
        assert FirstMatch(arrivals, appId) == FirstMatch(rest, appId) by { assert arrivals[..1][0] == arrivals[0]; }
      } else {
        assert NotYet(arrivals[..0], appId);
      }
    }
  }

  /** What a cold start answers in each case. */
  lemma StartErrors(active: ActiveWorkers, manifests: map<AppId, WorkerManifest>, appId: AppId, startup: Startup, child: ChildId, now: nat)
    ensures var r := StartStep(active, manifests, appId, startup, child, now).1;
            && (r == Err(AppNotFound) <==> appId !in manifests)
            && (r == Err(WorkerStartFailed) <==> appId in manifests && startup == SpawnFails)
            && (r == Err(WorkerStartTimeout) <==> appId in manifests && startup.Spawns? && FirstMatch(startup.arrivals, appId) == TimedOut)
            && (r == Err(AcceptFailed) <==> appId in manifests && startup.Spawns? && FirstMatch(startup.arrivals, appId) == Failed)
  {
    if appId in manifests && startup.Spawns? && FirstMatch(startup.arrivals, appId).Matched? {
      MatchIsExpected(startup.arrivals, appId);
    }
  }

  /** When a registration is accepted, what is then active for the app, and why it is refused otherwise. */
  lemma RegistrationOutcome(active: ActiveWorkers, frame: WorkerFrame, connection: WorkerConnection, child: Option<ChildId>,
                            idleTimeout: nat, expected: Option<AppId>, now: nat)
    ensures var (active', r) := RegistrationStep(active, frame, connection, child, idleTimeout, expected, now);
            var registers := frame.Request? && frame.payload.Some? && frame.payload.value.RegisterWorker?;
            && (r.Err? ==> active' == active)
            && (!frame.Request? ==> r == Err(InvalidWorkerFrame))
            && (frame.Request? && frame.payload == None ==> r == Err(WorkerSdk))
            && (frame.Request? && frame.payload.Some? && !registers ==> r == Err(InvalidWorkerFrame))
            && (registers && expected.Some? && !RegistersAs(frame, expected.value) ==> r == Err(UnexpectedWorkerResponse))
            && (registers && (expected == None || RegistersAs(frame, expected.value)) ==>
                  var request, sendable := frame.payload.value.registration, connection.sendResults == [] || connection.sendResults[0];
                  if !sendable then r == Err(Ipc)
                  else
                    && r == Ok(()) && request.appId in active'
                    && active'[request.appId].workerId == request.workerId
                    && active'[request.appId].child == child
                    && active'[request.appId].connection.inbox == connection.inbox
                    && |active'[request.appId].connection.sent| == |connection.sent| + 1
                    && active'[request.appId].connection.sent[|connection.sent|]
                       == Response(frame.requestId, frame.sessionId, if frame.target == "" then "core" else frame.target, frame.source,
                                   Some(RegisterWorkerAccepted(RegisterWorkerResponse(request.workerId, true, None)))))
            && (r.Ok? ==>
                  var request := frame.payload.value.registration;
                  forall a :: a != request.appId ==>
                    (a in active' <==> a in active && active[a].workerId != request.workerId) && (a in active' ==> active'[a] == active[a]))
  {
  }

  // ------------------------------------------------------------- reaping

  /** The time since an instant; none if it lies ahead. */
  function Elapsed(since: nat, now: nat): nat {
    if now < since then 0 else now - since
  }

  /** A worker outlives a tick that comes before its idle timeout is up; no timeout at all is always up. */
  function ReapStep(active: ActiveWorkers, now: nat): ActiveWorkers {
    map a | a in active && active[a].idleTimeout > 0 && now < active[a].lastUsedAt + active[a].idleTimeout :: active[a]
  }

  /** A dispatch that starts the app's worker first if none is active. */
  function DispatchWithStartStep(active: ActiveWorkers, nextRequestId: nat, manifests: map<AppId, WorkerManifest>, appId: AppId,
                                 call: string, payload: Content, startup: Startup, child: ChildId, now: nat): Dispatched {
    var (started, start) := if appId in active then (active, Ok(())) else StartStep(active, manifests, appId, startup, child, now);
    match start
    case Err(e) => Dispatched(started, nextRequestId, Err(e))
    case Ok(_) => DispatchStep(started, nextRequestId, appId, call, payload, now)
  }

  /** What is accepted from such a dispatch answers this very call: the last frame its worker was sent. */
  lemma WithStartSends(active: ActiveWorkers, nextRequestId: nat, manifests: map<AppId, WorkerManifest>, appId: AppId,
                       call: string, payload: Content, startup: Startup, child: ChildId, now: nat)
    requires DispatchWithStartStep(active, nextRequestId, manifests, appId, call, payload, startup, child, now).result.Ok?
    ensures var d := DispatchWithStartStep(active, nextRequestId, manifests, appId, call, payload, startup, child, now);
            && d.nextRequestId == nextRequestId + 1 && appId in d.active && d.active[appId].connection.sent != []
            && var w := d.active[appId];
               && w.connection.sent[|w.connection.sent| - 1]
                  == Request(nextRequestId, 1, "core", "worker:" + w.workerId, Some(DispatchWorker(DispatchWorkerRequest(appId, call, payload))))
               && (appId in active ==> w.workerId == active[appId].workerId && w.child == active[appId].child)
               && (appId !in active ==> w.workerId == appId && w.child == Some(child))
  {
    StartOutcome(active, manifests, appId, startup, child, now);
  }

  /** A start is tried only if no worker is active, and its error is the dispatch's; otherwise the dispatch decides. */
  lemma StartErrorIsReported(active: ActiveWorkers, nextRequestId: nat, manifests: map<AppId, WorkerManifest>, appId: AppId,
                             call: string, payload: Content, startup: Startup, child: ChildId, now: nat)
    ensures var d := DispatchWithStartStep(active, nextRequestId, manifests, appId, call, payload, startup, child, now);
            && (appId in active ==> d == DispatchStep(active, nextRequestId, appId, call, payload, now))
            && (appId !in active && StartStep(active, manifests, appId, startup, child, now).1.Err? ==>
                  d == Dispatched(active, nextRequestId, Err(StartStep(active, manifests, appId, startup, child, now).1.error)))
  {
    StartOutcome(active, manifests, appId, startup, child, now);
  }

  /** With a method to call, such a dispatch never fails for want of an active worker. */
  lemma StartedIsAvailable(active: ActiveWorkers, nextRequestId: nat, manifests: map<AppId, WorkerManifest>, appId: AppId,
                           call: string, payload: Content, startup: Startup, child: ChildId, now: nat)
    ensures DispatchWithStartStep(active, nextRequestId, manifests, appId, call, payload, startup, child, now).result != Err(WorkerUnavailable)
  {
    StartOutcome(active, manifests, appId, startup, child, now);
  }

  // ------------------------------------------------- how long a worker lives

  /** The app's worker outlives an idle tick at t exactly if it has a timeout that then is not yet up, counted from since. */
  ghost predicate LivesFor(active: ActiveWorkers, appId: AppId, since: nat, idleTimeout: nat, t: nat) {
    appId in ReapStep(active, t) <==> idleTimeout > 0 && t < since + idleTimeout
  }

  /** A successful dispatch counts as use, for its own app only; what an idle tick leaves, it leaves as it was. */
  lemma DispatchIsUse(active: ActiveWorkers, nextRequestId: nat, appId: AppId, call: string, payload: Content, now: nat, t: nat)
    requires DispatchStep(active, nextRequestId, appId, call, payload, now).result.Ok?
    ensures var d := DispatchStep(active, nextRequestId, appId, call, payload, now);
            && appId in active && LivesFor(d.active, appId, now, active[appId].idleTimeout, t)
            && (forall other :: other != appId ==> (other in ReapStep(d.active, t) <==> other in ReapStep(active, t)))
            && (forall a :: a in ReapStep(d.active, t) ==> ReapStep(d.active, t)[a] == d.active[a])
  {
  }

  /** So does a registration, with the timeout it came with. */
  lemma RegistrationIsUse(active: ActiveWorkers, frame: WorkerFrame, connection: WorkerConnection, child: Option<ChildId>,
                          idleTimeout: nat, expected: Option<AppId>, now: nat, t: nat)
    requires RegistrationStep(active, frame, connection, child, idleTimeout, expected, now).1.Ok?
    ensures var active' := RegistrationStep(active, frame, connection, child, idleTimeout, expected, now).0;
            && frame.Request? && frame.payload.Some? && frame.payload.value.RegisterWorker?
            && var request := frame.payload.value.registration;
               && LivesFor(active', request.appId, now, idleTimeout, t)
               && (forall other :: other != request.appId && (other in active ==> active[other].workerId != request.workerId) ==>
                     (other in ReapStep(active', t) <==> other in ReapStep(active, t)))
  {
  }

  /** A worker that registers by itself lives for five minutes. */
  lemma SelfRegisteredLives(active: ActiveWorkers, frame: WorkerFrame, connection: WorkerConnection, now: nat, t: nat)
    requires RegistrationStep(active, frame, connection, None, DEFAULT_IDLE_TIMEOUT_MS, None, now).1.Ok?
    ensures frame.Request? && frame.payload.Some? && frame.payload.value.RegisterWorker?
    ensures var active' := RegistrationStep(active, frame, connection, None, DEFAULT_IDLE_TIMEOUT_MS, None, now).0;
            frame.payload.value.registration.appId in ReapStep(active', t) <==> t < now + 300_000
  {
    RegistrationIsUse(active, frame, connection, None, DEFAULT_IDLE_TIMEOUT_MS, None, now, t);
  }

  /** And a cold start, with the timeout of the app's manifest. */
  lemma StartIsUse(active: ActiveWorkers, manifests: map<AppId, WorkerManifest>, appId: AppId, startup: Startup, child: ChildId, now: nat, t: nat)
    requires StartStep(active, manifests, appId, startup, child, now).1.Ok?
    ensures appId in manifests
    ensures LivesFor(StartStep(active, manifests, appId, startup, child, now).0, appId, now, manifests[appId].idleTimeoutMs, t)
  {
    MatchIsExpected(startup.arrivals, appId);
    var awaited := FirstMatch(startup.arrivals, appId);
    RegistrationIsUse(active, awaited.frame, awaited.connection, Some(child), manifests[appId].idleTimeoutMs, Some(appId), now, t);
  }

  /** A dispatch that may start the worker: on success it lives on by its own timeout, or the manifest's if it was just started. */
  lemma DispatchWithStartIsUse(active: ActiveWorkers, nextRequestId: nat, manifests: map<AppId, WorkerManifest>, appId: AppId,
                               call: string, payload: Content, startup: Startup, child: ChildId, now: nat, t: nat)
    requires DispatchWithStartStep(active, nextRequestId, manifests, appId, call, payload, startup, child, now).result.Ok?
    ensures appId in active || appId in manifests
    ensures LivesFor(DispatchWithStartStep(active, nextRequestId, manifests, appId, call, payload, startup, child, now).active, appId, now,
                     if appId in active then active[appId].idleTimeout else manifests[appId].idleTimeoutMs, t)
  {
    if appId in active {
      DispatchIsUse(active, nextRequestId, appId, call, payload, now, t);
    } else {
      var started := StartStep(active, manifests, appId, startup, child, now).0;
      StartOutcome(active, manifests, appId, startup, child, now);
      StartedTimeout(active, manifests, appId, startup, child, now);
      DispatchIsUse(started, nextRequestId, appId, call, payload, now, t);
    }
  }

  lemma RemoveOneMore(active: ActiveWorkers, done: set<AppId>, appId: AppId)
    ensures active - done - {appId} == active - (done + {appId})
  {
  }

  lemma RemoveIdle(active: ActiveWorkers, idle: set<AppId>, now: nat)
    requires forall a :: a in active ==>
      (a in idle <==> Elapsed(active[a].lastUsedAt, now) >= active[a].idleTimeout)
    ensures active - idle == ReapStep(active, now)
  {
  }

  // ------------------------------------------------------------ processes

  /** Worker processes. Killing one and waiting for it happens at most once. */
  class Processes {
    var spawned: nat
    var reaped: seq<ChildId>

    constructor ()
      ensures spawned == 0 && reaped == []
    {
      spawned := 0;
      reaped := [];
    }

    method Spawn() returns (child: ChildId)
      modifies this
      ensures child == old(spawned) && spawned == old(spawned) + 1 && reaped == old(reaped)
    {
      child := spawned;
      spawned := spawned + 1;
    }

    method KillAndWait(child: ChildId)
      requires child < spawned && child !in reaped
      modifies this`reaped
      ensures reaped == old(reaped) + [child]
    {
      reaped := reaped + [child];
    }
  }

  /** Every child is owned by exactly one active worker, or is the pending one, or was reaped exactly once. */
  ghost predicate Accounted(active: ActiveWorkers, spawned: nat, reaped: seq<ChildId>, pending: Option<ChildId>) {
    && (forall a :: a in active && active[a].child.Some? ==>
          active[a].child.value < spawned && active[a].child.value !in reaped && active[a].child != pending)
    && (forall a, b :: a in active && b in active && a != b && active[a].child.Some? ==> active[a].child != active[b].child)
    && (forall i, j :: 0 <= i < j < |reaped| ==> reaped[i] != reaped[j])
    && (forall c :: c in reaped ==> c < spawned && pending != Some(c))
    && (pending.Some? ==> pending.value < spawned)
    && (forall c: nat :: c < spawned ==> c in reaped || pending == Some(c) || exists a :: a in active && active[a].child == Some(c))
  }

  function ChildList(child: Option<ChildId>): seq<ChildId> {
    if child == None then [] else [child.value]
  }

  lemma AccountedRemove(active: ActiveWorkers, spawned: nat, reaped: seq<ChildId>, pending: Option<ChildId>, appId: AppId)
    requires Accounted(active, spawned, reaped, pending) && appId in active
    ensures Accounted(active - {appId}, spawned, reaped + ChildList(active[appId].child), pending)
  {
    var reaped' := reaped + ChildList(active[appId].child);
    forall c: nat | c < spawned
      ensures c in reaped' || pending == Some(c) || exists a :: a in active - {appId} && (active - {appId})[a].child == Some(c)
    {
      if c !in reaped' && pending != Some(c) {
        var a :| a in active && active[a].child == Some(c);
        assert a in active - {appId};
      }
    }
  }

  lemma AccountedInsert(active: ActiveWorkers, spawned: nat, reaped: seq<ChildId>, appId: AppId, w: ActiveWorker)
    requires Accounted(active, spawned, reaped, w.child) && appId !in active
    ensures Accounted(active[appId := w], spawned, reaped, None)
  {
    var active' := active[appId := w];
    forall c: nat | c < spawned ensures c in reaped || exists a :: a in active' && active'[a].child == Some(c) {
      if w.child == Some(c) {
        assert active'[appId].child == Some(c);
      } else if c !in reaped {
        var a :| a in active && active[a].child == Some(c);
        assert a in active' && active'[a].child == Some(c);
      }
    }
  }

  lemma AccountedUpdate(active: ActiveWorkers, spawned: nat, reaped: seq<ChildId>, appId: AppId, w: ActiveWorker)
    requires Accounted(active, spawned, reaped, None) && appId in active && w.child == active[appId].child
    ensures Accounted(active[appId := w], spawned, reaped, None)
  {
    var active' := active[appId := w];
    forall c: nat | c < spawned ensures c in reaped || exists a :: a in active' && active'[a].child == Some(c) {
      if c !in reaped {
        var a :| a in active && active[a].child == Some(c);
        assert a in active' && active'[a].child == Some(c);
      }
    }
  }

  lemma AccountedSpawn(active: ActiveWorkers, spawned: nat, reaped: seq<ChildId>)
    requires Accounted(active, spawned, reaped, None)
    ensures Accounted(active, spawned + 1, reaped, Some(spawned))
  {
  }

  /** A child waiting for an owner that finds none is reaped. */
  lemma AccountedReap(active: ActiveWorkers, spawned: nat, reaped: seq<ChildId>, pending: Option<ChildId>)
    requires Accounted(active, spawned, reaped, pending)
    ensures Accounted(active, spawned, reaped + ChildList(pending), None)
  {
  }

  /** The active workers and the registry describe the same pairing of apps and workers. */
  ghost predicate Agree(active: ActiveWorkers, appWorkers: map<AppId, WorkerId>) {
    && active.Keys == appWorkers.Keys
    && forall a :: a in active ==> active[a].workerId == appWorkers[a]
  }

  lemma AgreeingSizes(workers: map<WorkerId, RegisteredWorker>, appWorkers: map<AppId, WorkerId>, active: ActiveWorkers)
    requires MutuallyInverse(workers, appWorkers) && Agree(active, appWorkers)
    ensures |active| == |appWorkers| == |workers|
  {
    SameSize(workers, appWorkers);
    assert |active.Keys| == |appWorkers.Keys|;
  }

  /** Only one active worker can hold the worker id: the one the registry knows. */
  lemma InsertByRemoving(active: ActiveWorkers, workers: map<WorkerId, RegisteredWorker>, appWorkers: map<AppId, WorkerId>,
                         request: RegisterWorkerRequest, w: ActiveWorker)
    requires MutuallyInverse(workers, appWorkers) && Agree(active, appWorkers)
    ensures request.workerId in workers ==>
              InsertStep(active, request, w) == (active - {workers[request.workerId].appId} - {request.appId})[request.appId := w]
    ensures request.workerId !in workers ==> InsertStep(active, request, w) == (active - {request.appId})[request.appId := w]
  {
  }

  lemma UpdateAgrees(active: ActiveWorkers, appWorkers: map<AppId, WorkerId>, appId: AppId, w: ActiveWorker)
    requires Agree(active, appWorkers) && appId in active && w.workerId == active[appId].workerId
    ensures Agree(active[appId := w], appWorkers)
  {
  }

  lemma InsertAgrees(active: ActiveWorkers, appWorkers: map<AppId, WorkerId>, request: RegisterWorkerRequest, w: ActiveWorker)
    requires Agree(active, appWorkers) && w.workerId == request.workerId
    ensures Agree(InsertStep(active, request, w), Paired(appWorkers, request.appId, request.workerId))
  {
  }

  // -------------------------------------------------------------- manager

  class Manager {
    const registry: Registry
    const processes: Processes
    const manifests: map<AppId, WorkerManifest>
    var activeWorkers: ActiveWorkers
    var nextRequestId: nat
    /** The ids given to dispatches so far. */
    ghost var issued: seq<nat>

    ghost predicate IdsFresh()
      reads this
    {
      && (forall i :: 0 <= i < |issued| ==> issued[i] < nextRequestId)
      && (forall i, j :: 0 <= i < j < |issued| ==> issued[i] < issued[j])
    }

    /** The invariant while one started child has no owner yet. */
    ghost predicate ValidWith(pending: Option<ChildId>)
      reads this, registry, processes
    {
      && registry.Valid()
      && Agree(activeWorkers, registry.appWorkers)
      && Accounted(activeWorkers, processes.spawned, processes.reaped, pending)
      && IdsFresh()
    }

    ghost predicate Valid()
      reads this, registry, processes
    {
      ValidWith(None)
    }

    constructor (manifests: map<AppId, WorkerManifest>)
      ensures Valid() && fresh(registry) && fresh(processes)
      ensures this.manifests == manifests && activeWorkers == map[] && nextRequestId == 1
      ensures processes.spawned == 0
    {
      registry := new Registry();
      processes := new Processes();
      this.manifests := manifests;
      activeWorkers := map[];
      nextRequestId := 1;
      issued := [];
    }

    predicate IsActive(appId: AppId)
      reads this
    {
      appId in activeWorkers
    }

    /** In every reachable state the three maps have the same size and the same pairs. */
    lemma MapsAgree(appId: AppId)
      requires Valid()
      ensures |activeWorkers| == |registry.appWorkers| == |registry.workers|
      ensures IsActive(appId) <==> registry.GetByAppId(appId).Some?
      ensures IsActive(appId) ==> registry.GetByAppId(appId).value.workerId == activeWorkers[appId].workerId
    {
      AgreeingSizes(registry.workers, registry.appWorkers, activeWorkers);
    }

    /** Takes the child out of the worker before killing it, so that a second call does nothing. */
    method Terminate(w: ActiveWorker) returns (w': ActiveWorker)
      requires w.child.Some? ==> w.child.value < processes.spawned && w.child.value !in processes.reaped
      modifies processes`reaped
      ensures w' == w.(child := None)
      ensures processes.reaped == old(processes.reaped) + ChildList(w.child)
    {
      w' := w.(child := None);
      if w.child.Some? {
        processes.KillAndWait(w.child.value);
      }
    }

    /** Removes the app's active worker and terminates it, once by hand and once more as it is dropped. */
    method RemoveActive(appId: AppId, ghost pending: Option<ChildId>)
      requires Accounted(activeWorkers, processes.spawned, processes.reaped, pending)
      modifies this`activeWorkers, processes`reaped
      ensures activeWorkers == old(activeWorkers) - {appId}
      ensures Accounted(activeWorkers, processes.spawned, processes.reaped, pending)
    {
      if appId in activeWorkers {
        var worker := activeWorkers[appId];
        AccountedRemove(activeWorkers, processes.spawned, processes.reaped, pending, appId);
        activeWorkers := activeWorkers - {appId};
        var terminated := Terminate(worker);
        label beforeDrop:
        var dropped := Terminate(terminated);
        assert processes.reaped == old@beforeDrop(processes.reaped);
      } else {
        assert activeWorkers - {appId} == activeWorkers;
      }
    }

    method InsertActiveWorker(request: RegisterWorkerRequest, connection: WorkerConnection, child: Option<ChildId>, idleTimeoutMs: nat, now: nat)
      requires ValidWith(child)
      modifies this`activeWorkers, registry, processes`reaped
      ensures Valid()
      ensures activeWorkers == InsertStep(old(activeWorkers), request, ActiveWorker(request.workerId, connection, child, now, idleTimeoutMs))
      ensures registry.appWorkers == Paired(old(registry.appWorkers), request.appId, request.workerId)
      ensures registry.workers == Enrolled(old(registry.workers), request)
    {
      var appId, workerId := request.appId, request.workerId;
      var w := ActiveWorker(workerId, connection, child, now, idleTimeoutMs);
      ghost var before := activeWorkers;
      InsertAgrees(before, registry.appWorkers, request, w);
      InsertByRemoving(before, registry.workers, registry.appWorkers, request, w);
      var previous := registry.Get(workerId);
      if previous.Some? && previous.value.appId != appId {
        RemoveActive(previous.value.appId, child);
      }
      assert activeWorkers - {appId} == if previous.Some? then before - {previous.value.appId} - {appId} else before - {appId};
      var _ := registry.Register(request);
      RemoveActive(appId, child);
      AccountedInsert(activeWorkers, processes.spawned, processes.reaped, appId, w);
      activeWorkers := activeWorkers[appId := w];
    }

    /** Ends the app's worker and its registration. */
    method Forget(appId: AppId)
      requires Valid()
      modifies this`activeWorkers, registry, processes`reaped
      ensures Valid()
      ensures activeWorkers == old(activeWorkers) - {appId}
    {
      RemoveActive(appId, None);
      var _ := registry.RemoveByAppId(appId);
    }

    method ReapIdleWorkers(now: nat)
      requires Valid()
      modifies this`activeWorkers, registry, processes`reaped
      ensures Valid()
      ensures activeWorkers == ReapStep(old(activeWorkers), now)
    {
      var expired := set a | a in activeWorkers && Elapsed(activeWorkers[a].lastUsedAt, now) >= activeWorkers[a].idleTimeout;
      ghost var idle, done := expired, {};
      while expired != {}
        invariant Valid()
        invariant idle == done + expired
        invariant activeWorkers == old(activeWorkers) - done
        decreases |expired|
      {
        var appId :| appId in expired;
        expired := expired - {appId};
        Forget(appId);
        RemoveOneMore(old(activeWorkers), done, appId);
        done := done + {appId};
      }
      RemoveIdle(old(activeWorkers), done, now);
    }

    /** The checks a registration frame goes through, in order. */
    method RegistrationResult(frame: WorkerFrame, expected: Option<AppId>) returns (r: Result<(), CoreError>)
      ensures r == match RegistrationOf(frame, expected) case Ok(_) => Ok(()) case Err(e) => Err(e)
    {
      if !frame.Request? {
        return Err(InvalidWorkerFrame);
      }
      if frame.payload == None {
        return Err(WorkerSdk);
      }
      if !frame.payload.value.RegisterWorker? {
        return Err(InvalidWorkerFrame);
      }
      var request := frame.payload.value.registration;
      if expected.Some? && (request.appId != expected.value || request.workerId != expected.value) {
        return Err(UnexpectedWorkerResponse);
      }
      return Ok(());
    }

    method HandleRegistration(frame: WorkerFrame, connection: WorkerConnection, child: Option<ChildId>, idleTimeoutMs: nat,
                              expected: Option<AppId>, now: nat)
      returns (r: Result<(), CoreError>)
      requires ValidWith(child)
      modifies this`activeWorkers, registry, processes`reaped
      ensures Valid()
      ensures (activeWorkers, r) == RegistrationStep(old(activeWorkers), frame, connection, child, idleTimeoutMs, expected, now)
      ensures r.Err? ==> processes.reaped == old(processes.reaped) + ChildList(child)
    {
      r := RegistrationResult(frame, expected);
      if r.Ok? {
        var request := frame.payload.value.registration;
        var (connection', sent) := connection.Send(Acceptance(frame, request));
        if sent {
          InsertActiveWorker(request, connection', child, idleTimeoutMs, now);
          return Ok(());
        }
        r := Err(Ipc);
      }
      AccountedReap(activeWorkers, processes.spawned, processes.reaped, child);
      if child.Some? {
        processes.KillAndWait(child.value);
      }
    }

    method AwaitRegistration(arrivals: seq<Arrival>, appId: AppId) returns (awaited: Awaited)
      ensures awaited == FirstMatch(arrivals, appId)
    {
      var i := 0;
      while i < |arrivals|
        invariant 0 <= i <= |arrivals|
        invariant FirstMatch(arrivals, appId) == FirstMatch(arrivals[i..], appId)
      {
        assert arrivals[i..][1..] == arrivals[i + 1..];
        match arrivals[i] {
          case AcceptError =>
            return Failed;
          case NoFrame =>
          case Candidate(frame, connection) =>
            var registration := RegistrationResult(frame, Some(appId));
            if registration.Ok? {
              return Matched(frame, connection);
            }
        }
        i := i + 1;
      }
      return TimedOut;
    }

    method StartAndWaitForRegistration(appId: AppId, startup: Startup, now: nat) returns (r: Result<(), CoreError>)
      requires Valid()
      modifies this`activeWorkers, registry, processes
      ensures Valid()
      ensures (activeWorkers, r) == StartStep(old(activeWorkers), manifests, appId, startup, old(processes.spawned), now)
      ensures processes.spawned == old(processes.spawned) + Spawned(manifests, appId, startup)
    {
      if appId !in manifests {
        return Err(AppNotFound);
      }
      if startup == SpawnFails {
        return Err(WorkerStartFailed);
      }
      AccountedSpawn(activeWorkers, processes.spawned, processes.reaped);
      var child := processes.Spawn();
      var awaited := AwaitRegistration(startup.arrivals, appId);
      match awaited {
        case Matched(frame, connection) =>
          r := HandleRegistration(frame, connection, Some(child), manifests[appId].idleTimeoutMs, Some(appId), now);
        case Failed =>
          AccountedReap(activeWorkers, processes.spawned, processes.reaped, Some(child));
          processes.KillAndWait(child);
          r := Err(AcceptFailed);
        case TimedOut =>
          AccountedReap(activeWorkers, processes.spawned, processes.reaped, Some(child));
          processes.KillAndWait(child);
          r := Err(WorkerStartTimeout);
      }
    }

    method Dispatch(appId: AppId, call: string, payload: Content, now: nat) returns (r: Result<DispatchResult, CoreError>)
      requires Valid()
      modifies this, registry, processes`reaped
      ensures Valid()
      ensures Dispatched(activeWorkers, nextRequestId, r)
           == DispatchStep(old(activeWorkers), old(nextRequestId), appId, call, payload, now)
      ensures issued == if call == "" then old(issued) else old(issued) + [old(nextRequestId)]
    {
      if call == "" {
        return Err(UnexpectedWorkerResponse);
      }
      var requestId := nextRequestId;
      nextRequestId := nextRequestId + 1;
      issued := issued + [requestId];
      if appId !in activeWorkers {
        return Err(WorkerUnavailable);
      }
      var active := activeWorkers[appId];
      var (connection, answer) := Exchange(active.connection, DispatchFrame(active, requestId, appId, call, payload));
      r := DispatchAnswer(answer);
      if r.Ok? {
        var used := active.(connection := connection, lastUsedAt := now);
        AccountedUpdate(activeWorkers, processes.spawned, processes.reaped, appId, used);
        UpdateAgrees(activeWorkers, registry.appWorkers, appId, used);
        activeWorkers := activeWorkers[appId := used];
      } else {
        Forget(appId);
      }
    }

    /** startup: what starting a worker would meet, should it be needed. */
    method DispatchWithStart(appId: AppId, call: string, payload: Content, startup: Startup, now: nat) returns (r: Result<DispatchResult, CoreError>)
      requires Valid()
      modifies this, registry, processes
      ensures Valid()
      ensures Dispatched(activeWorkers, nextRequestId, r)
           == DispatchWithStartStep(old(activeWorkers), old(nextRequestId), manifests, appId, call, payload, startup, old(processes.spawned), now)
      ensures processes.spawned
           == old(processes.spawned) + if appId in old(activeWorkers) then 0 else Spawned(manifests, appId, startup)
    {
      if !IsActive(appId) {
        var start := StartAndWaitForRegistration(appId, startup, now);
        if start.Err? {
          return Err(start.error);
        }
      }
      r := Dispatch(appId, call, payload, now);
    }

    /** Dropping the manager terminates every worker it still owns: no child outlives it, none is reaped twice. */
    method Drop()
      requires Valid()
      modifies this`activeWorkers, processes`reaped
      ensures activeWorkers == map[]
      ensures forall c :: c in processes.reaped <==> 0 <= c < processes.spawned
      ensures forall i, j :: 0 <= i < j < |processes.reaped| ==> processes.reaped[i] != processes.reaped[j]
    {
      while activeWorkers != map[]
        invariant Accounted(activeWorkers, processes.spawned, processes.reaped, None)
        decreases |activeWorkers|
      {
        var appId :| appId in activeWorkers;
        assert |activeWorkers.Keys - {appId}| < |activeWorkers.Keys|;
        RemoveActive(appId, None);
      }
    }
  }

  // ------------------------------------------------------------------ runs

  /** One turn of the core, at some time: a worker registers by itself, a dispatch (with what starting a worker would meet), or an idle tick. */
  datatype Turn =
    | Registers(frame: WorkerFrame, connection: WorkerConnection, at: nat)
    | Dispatches(appId: AppId, call: string, payload: Content, startup: Startup, at: nat)
    | Ticks(at: nat)

  /** Children are conserved over every run: whatever registers, fails, times out, is replaced or goes idle,
      once the manager is gone each process ever started has been killed and waited for exactly once. */
  method RunToEnd(manifests: map<AppId, WorkerManifest>, turns: seq<Turn>) returns (spawned: nat, reaped: seq<ChildId>)
    ensures forall c :: c in reaped <==> 0 <= c < spawned
    ensures forall i, j :: 0 <= i < j < |reaped| ==> reaped[i] != reaped[j]
  {
    var manager := new Manager(manifests);
    for i := 0 to |turns|
      invariant manager.Valid() && fresh(manager) && fresh(manager.registry) && fresh(manager.processes)
    {
      match turns[i] {
        case Registers(frame, connection, at) =>
          var _ := manager.HandleRegistration(frame, connection, None, DEFAULT_IDLE_TIMEOUT_MS, None, at);
        case Dispatches(appId, call, payload, startup, at) =>
          var _ := manager.DispatchWithStart(appId, call, payload, startup, at);
        case Ticks(at) =>
          manager.ReapIdleWorkers(at);
      }
    }
    manager.Drop();
    spawned, reaped := manager.processes.spawned, manager.processes.reaped;
  }
}
