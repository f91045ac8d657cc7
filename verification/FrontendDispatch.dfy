/** Frontend dispatch: permission, audit row, and only then the worker. */
module FrontendDispatch {
  import opened Basics
  import opened FrontendProtocol
  import W = WorkerManager

  datatype AuditRow = AuditRow(appId: string, call: string, decision: string, reason: string)

  /** The methods each known app lets frontends call. */
  type Permissions = map<string, seq<string>>

  /** The check the database makes before it writes a row. */
  predicate ValidRow(row: AuditRow) {
    && row.decision in {"allow", "deny"}
    && row.reason in {"allowed", "app_not_found", "permission_denied"}
  }

  datatype Verdict = Reply(response: FrontendDispatchResponse) | Proceed

  /** The row a request is due, if any, and what follows once it is written. */
  function Ruling(permissions: Permissions, appId: string, call: string): (Option<AuditRow>, Verdict) {
    if appId == "" || call == "" then (None, Reply(PlatformError("invalid_request")))
    else if appId !in permissions then
      (Some(AuditRow(appId, call, "deny", "app_not_found")), Reply(PlatformError("app_not_found")))
    else if call !in permissions[appId] then
      (Some(AuditRow(appId, call, "deny", "permission_denied")), Reply(PlatformError("permission_denied")))
    else (Some(AuditRow(appId, call, "allow", "allowed")), Proceed)
  }

  /** writable: whether the insert succeeds should the row be valid. */
  function RuledAndWritten(permissions: Permissions, appId: string, call: string, writable: bool): (seq<AuditRow>, Verdict) {
    var (row, verdict) := Ruling(permissions, appId, call);
    if row == None then ([], verdict)
    else if writable && ValidRow(row.value) then ([row.value], verdict)
    else ([], Reply(PlatformError("core_error")))
  }

  function PlatformCode(e: W.CoreError): string {
    match e
    case AppNotFound => "app_not_found"
    case WorkerStartFailed => "worker_start_failed"
    case WorkerStartTimeout => "worker_start_timeout"
    case WorkerUnavailable => "worker_unavailable"
    case DispatchIpcError => "dispatch_ipc_error"
    case UnexpectedWorkerResponse => "unexpected_worker_response"
    case _ => "core_error"
  }

  function WorkerReply(r: Result<W.DispatchResult, W.CoreError>): FrontendDispatchResponse {
    match r
    case Ok(Done(payload)) => Done(payload)
    case Ok(AppError(code, message)) => AppError(code, message)
    case Err(e) => PlatformError(PlatformCode(e))
  }

  predicate OneRegistry(permissions: Permissions, manifests: map<string, W.WorkerManifest>) {
    permissions.Keys == manifests.Keys
  }

  predicate Permitted(permissions: Permissions, appId: string, call: string) {
    appId != "" && call != "" && appId in permissions && call in permissions[appId]
  }

  /** An allowed call finds its app again when it comes to starting the worker; app_not_found is for refused calls only. */
  lemma AllowedAppIsFound(permissions: Permissions, manifests: map<string, W.WorkerManifest>, active: W.ActiveWorkers, nextRequestId: nat,
                          appId: string, call: string, payload: Content, startup: W.Startup, child: W.ChildId, now: nat)
    requires OneRegistry(permissions, manifests) && Permitted(permissions, appId, call)
    ensures var r := W.DispatchWithStartStep(active, nextRequestId, manifests, appId, call, payload, startup, child, now).result;
            r != Err(W.AppNotFound) && WorkerReply(r) != PlatformError("app_not_found")
  {
    W.StartOutcome(active, manifests, appId, startup, child, now);
  }

  /** What a request is answered, given the state of the workers and what starting one would meet. */
  function Answer(permissions: Permissions, manifests: map<string, W.WorkerManifest>, active: W.ActiveWorkers, nextRequestId: nat,
                  appId: string, call: string, payload: Content, writable: bool, startup: W.Startup, child: W.ChildId, now: nat)
    : FrontendDispatchResponse
  {
    match RuledAndWritten(permissions, appId, call, writable).1
    case Reply(response) => response
    case Proceed =>
      WorkerReply(W.DispatchWithStartStep(active, nextRequestId, manifests, appId, call, payload, startup, child, now).result)
  }

  /** What happened, oldest first: rows in the audit table and calls into the worker manager. */
  datatype Entry = Wrote(row: AuditRow) | Contacted(appId: string, call: string)

  function Effects(permissions: Permissions, appId: string, call: string, writable: bool): seq<Entry> {
    var (rows, verdict) := RuledAndWritten(permissions, appId, call, writable);
    (if rows == [] then [] else [Wrote(rows[0])]) + (if verdict == Proceed then [Contacted(appId, call)] else [])
  }

  class Dispatcher {
    const manager: W.Manager
    const permissions: Permissions
    var rows: seq<AuditRow>
    ghost var trace: seq<Entry>

    /** Permissions and worker manifests are two views of one registry of apps. */
    ghost predicate Valid()
      reads this, manager, manager.registry, manager.processes
    {
      manager.Valid() && OneRegistry(permissions, manager.manifests)
    }

    constructor (manager: W.Manager, permissions: Permissions)
      requires manager.Valid() && OneRegistry(permissions, manager.manifests)
      ensures Valid()
      ensures this.manager == manager && this.permissions == permissions && rows == [] && trace == []
    {
      this.manager := manager;
      this.permissions := permissions;
      rows := [];
      trace := [];
    }

    method RecordAudit(row: AuditRow, writable: bool) returns (ok: bool)
      modifies this
      ensures ok <==> writable && ValidRow(row)
      ensures rows == old(rows) + if ok then [row] else []
      ensures trace == old(trace) + if ok then [Wrote(row)] else []
    {
      if row.decision != "allow" && row.decision != "deny" {
        return false;
      }
      if row.reason != "allowed" && row.reason != "app_not_found" && row.reason != "permission_denied" {
        return false;
      }
      if !writable {
        return false;
      }
      rows := rows + [row];
      trace := trace + [Wrote(row)];
      return true;
    }

    /** Unless the allowing row was just written, the manager is left untouched: same workers,
        same request ids, no process started. */
    method HandleRequest(appId: string, call: string, payload: Content, writable: bool, startup: W.Startup, now: nat)
      returns (response: FrontendDispatchResponse)
      requires Valid()
      modifies this, manager, manager.registry, manager.processes
      ensures Valid()
      ensures rows == old(rows) + RuledAndWritten(permissions, appId, call, writable).0
      ensures trace == old(trace) + Effects(permissions, appId, call, writable)
      ensures var verdict := RuledAndWritten(permissions, appId, call, writable).1;
              verdict.Reply? ==>
                && response == verdict.response
                && manager.activeWorkers == old(manager.activeWorkers)
                && manager.nextRequestId == old(manager.nextRequestId)
                && manager.processes.spawned == old(manager.processes.spawned)
      ensures RuledAndWritten(permissions, appId, call, writable).1 == Proceed ==>
                var d := W.DispatchWithStartStep(old(manager.activeWorkers), old(manager.nextRequestId), manager.manifests,
                                                 appId, call, payload, startup, old(manager.processes.spawned), now);
                && response == WorkerReply(d.result)
                && response != PlatformError("app_not_found")
                && manager.activeWorkers == d.active
                && manager.nextRequestId == d.nextRequestId
    {
      if appId == "" {
        return PlatformError("invalid_request");
      }
      if call == "" {
        return PlatformError("invalid_request");
      }
      if appId !in permissions {
        var wrote := RecordAudit(AuditRow(appId, call, "deny", "app_not_found"), writable);
        return if wrote then PlatformError("app_not_found") else PlatformError("core_error");
      }
      if call !in permissions[appId] {
        var wrote := RecordAudit(AuditRow(appId, call, "deny", "permission_denied"), writable);
        return if wrote then PlatformError("permission_denied") else PlatformError("core_error");
      }
      var wrote := RecordAudit(AuditRow(appId, call, "allow", "allowed"), writable);
      if !wrote {
        return PlatformError("core_error");
      }
      trace := trace + [Contacted(appId, call)];
      AllowedAppIsFound(permissions, manager.manifests, manager.activeWorkers, manager.nextRequestId, appId, call, payload, startup,
                        manager.processes.spawned, now);
      var r := manager.DispatchWithStart(appId, call, payload, startup, now);
      response := WorkerReply(r);
    }
  }

  // ------------------------------------------------------------------ runs

  datatype Request = Request(appId: string, call: string, writable: bool)

  function TraceOf(permissions: Permissions, requests: seq<Request>): seq<Entry> {
    if requests == [] then []
    else
      var q := requests[|requests| - 1];
      TraceOf(permissions, requests[..|requests| - 1]) + Effects(permissions, q.appId, q.call, q.writable)
  }

  /** The pairs the handler uses always pass the database's check. */
  lemma RowsAreValid(permissions: Permissions, appId: string, call: string)
    ensures Ruling(permissions, appId, call).0.Some? ==> ValidRow(Ruling(permissions, appId, call).0.value)
    ensures RuledAndWritten(permissions, appId, call, true).0
         == if Ruling(permissions, appId, call).0 == None then [] else [Ruling(permissions, appId, call).0.value]
  {
  }

  /** Which row a request gets: none if it names no app or no method, else one that gives the reason. */
  lemma RowReasons(permissions: Permissions, appId: string, call: string)
    ensures var rows := RuledAndWritten(permissions, appId, call, true).0;
            if appId == "" || call == "" then rows == []
            else rows == [AuditRow(appId, call, if Permitted(permissions, appId, call) then "allow" else "deny",
                                   if appId !in permissions then "app_not_found"
                                   else if call in permissions[appId] then "allowed" else "permission_denied")]
    ensures RuledAndWritten(permissions, appId, call, false).0 == []
  {
  }

  /** A contact comes right after its allowing row; a row is valid, allows exactly a permitted call,
      and allows exactly when the contact follows at once. */
  ghost predicate EntryOk(permissions: Permissions, trace: seq<Entry>, k: nat)
    requires k < |trace|
  {
    match trace[k]
    case Contacted(appId, call) =>
      k > 0 && trace[k - 1] == Wrote(AuditRow(appId, call, "allow", "allowed")) && Permitted(permissions, appId, call)
    case Wrote(row) =>
      && ValidRow(row)
      && (row.decision == "allow" <==> Permitted(permissions, row.appId, row.call))
      && (row.decision == "allow" <==> k + 1 < |trace| && trace[k + 1] == Contacted(row.appId, row.call))
  }

  ghost predicate AuditFirst(permissions: Permissions, trace: seq<Entry>) {
    forall k :: 0 <= k < |trace| ==> EntryOk(permissions, trace, k)
  }

  lemma EffectsAuditFirst(permissions: Permissions, appId: string, call: string, writable: bool)
    ensures AuditFirst(permissions, Effects(permissions, appId, call, writable))
    ensures |Effects(permissions, appId, call, writable)| <= 2
  {
  }

  lemma AuditFirstConcat(permissions: Permissions, a: seq<Entry>, b: seq<Entry>)
    requires AuditFirst(permissions, a) && AuditFirst(permissions, b)
    ensures AuditFirst(permissions, a + b)
  {
    var t := a + b;
    forall k | 0 <= k < |t| ensures EntryOk(permissions, t, k) {
      if k < |a| {
        assert EntryOk(permissions, a, k);
        if k == |a| - 1 && b != [] {
          assert EntryOk(permissions, b, 0);
          assert t[k + 1] == b[0];
        }
      } else {
        var j := k - |a|;
        assert EntryOk(permissions, b, j);
        assert t[k] == b[j];
        assert j > 0 ==> t[k - 1] == b[j - 1];
        assert j + 1 < |b| ==> t[k + 1] == b[j + 1];
      }
    }
  }

  /** Audit before effect, in every run and with audit writes failing anywhere. */
  lemma {:induction false} AuditBeforeEffect(permissions: Permissions, requests: seq<Request>)
    ensures AuditFirst(permissions, TraceOf(permissions, requests))
  {
    if requests != [] {
      var q := requests[|requests| - 1];
      AuditBeforeEffect(permissions, requests[..|requests| - 1]);
      EffectsAuditFirst(permissions, q.appId, q.call, q.writable);
      AuditFirstConcat(permissions, TraceOf(permissions, requests[..|requests| - 1]), Effects(permissions, q.appId, q.call, q.writable));
    }
  }
}
