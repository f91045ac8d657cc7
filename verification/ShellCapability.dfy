/** A shell request from decoding to effect, and every run of requests and approval decisions. */
module ShellCapability {
  import opened Basics
  import opened ShellSyntax
  import opened ShellPolicy
  import A = Approval
  import P = ShellParser

  datatype ShellRunParams = ShellRunParams(command: string, approvalId: Option<string>)

  datatype ShellRunResult = ShellRunResult(stdout: string, stderr: string, exitCode: int)

  datatype ShellRunOutcome = Completed(result: ShellRunResult) | PendingApproval(approvalId: string)

  /** What a request did: nothing, a new approval record, or handing the command to the shell. */
  datatype Effect =
    | Refused(error: CapabilityError)
    | Asked(approvalId: string, commands: seq<string>)
    | Ran(via: Option<string>)

  function ConsumeErrorReply(error: A.ConsumeError): CapabilityError {
    match error
    case Mismatch => CapabilityError("approval_mismatch", "approval_id does not match this command")
    case NotFound => CapabilityError("approval_denied", "approval was rejected or is unavailable")
    case WasRejected => CapabilityError("approval_denied", "approval was rejected or is unavailable")
    case WasExpired => CapabilityError("approval_denied", "approval was rejected or is unavailable")
    case StillPending => CapabilityError("approval_denied", "approval is still pending")
  }

  /** A request for an app whose manifest is known; params is None when its bytes do not decode. */
  function Decide(manifest: Manifest, call: string, params: Option<ShellRunParams>, store: A.Store, now: nat): (A.Store, Effect) {
    if call != "run" then (store, Refused(CapabilityError("unknown_method", "unknown shell method: " + call)))
    else if params == None then (store, Refused(CapabilityError("invalid_params", "invalid params")))
    else
      var command := params.value.command;
      match Parse(command)
      case Err(e) => (store, Refused(e))
      case Ok(commands) =>
        match params.value.approvalId
        case Some(id) =>
          var (store', failure) := A.ConsumeIn(store, id, manifest.appId, "shell", command, now);
          (store', if failure == None then Ran(Some(id)) else Refused(ConsumeErrorReply(failure.value)))
        case None =>
          match Policy(manifest, commands)
          case Allow => (store, Ran(None))
          case Ask =>
            var (store', id) := A.CreateIn(store, manifest.appId, "shell", command, commands, now);
            (store', Asked(id, commands))
          case Deny => (store, Refused(CapabilityError("permission_denied", "shell command is not allowed for app \"" + manifest.appId + "\"")))
  }

  function Reply(effect: Effect, shell: Result<ShellRunResult, CapabilityError>): Result<ShellRunOutcome, CapabilityError> {
    match effect
    case Refused(e) => Err(e)
    case Asked(id, _) => Ok(PendingApproval(id))
    case Ran(_) => if shell.Ok? then Ok(Completed(shell.value)) else Err(shell.error)
  }

  /** shell: what the operating system reports should the command be run. */
  method HandleShellRequest(manifest: Manifest, call: string, params: Option<ShellRunParams>, approvals: A.ApprovalStore, now: nat,
                            shell: Result<ShellRunResult, CapabilityError>)
    returns (reply: Result<ShellRunOutcome, CapabilityError>, effect: Effect)
    modifies approvals
    ensures (approvals.Contents(), effect) == Decide(manifest, call, params, old(approvals.Contents()), now)
    ensures reply == Reply(effect, shell)
    ensures effect.Ran? ==> reply == match shell case Ok(result) => Ok(Completed(result)) case Err(e) => Err(e)
    ensures effect.Asked? ==>
              && reply == Ok(PendingApproval(effect.approvalId))
              && effect.approvalId in approvals.entries
              && approvals.entries[effect.approvalId].state == A.Pending
    ensures effect.Refused? ==> reply == Err(effect.error)
  {
    if call != "run" {
      effect := Refused(CapabilityError("unknown_method", "unknown shell method: " + call));
      return Reply(effect, shell), effect;
    }
    if params == None {
      effect := Refused(CapabilityError("invalid_params", "invalid params"));
      return Reply(effect, shell), effect;
    }
    var command := params.value.command;
    var parsed := P.ParsePipeline(command);
    if parsed.Err? {
      effect := Refused(parsed.error);
      return Reply(effect, shell), effect;
    }
    var commands := parsed.value;

    if params.value.approvalId.Some? {
      var id := params.value.approvalId.value;
      var failure := approvals.ConsumeApproved(id, manifest.appId, "shell", command, now);
      effect := if failure == None then Ran(Some(id)) else Refused(ConsumeErrorReply(failure.value));
      return Reply(effect, shell), effect;
    }

    var decision := DecideShellPolicy(manifest, commands);
    match decision {
      case Allow =>
        effect := Ran(None);
      case Ask =>
        var id := approvals.Create(manifest.appId, "shell", command, commands, now);
        effect := Asked(id, commands);
      case Deny =>
        effect := Refused(CapabilityError("permission_denied", "shell command is not allowed for app \"" + manifest.appId + "\""));
    }
    reply := Reply(effect, shell);
  }

  // ------------------------------------------------------------------ runs

  /** The loaded manifests, keyed by the app id they declare; they are fixed while the core runs. */
  type Manifests = map<string, Manifest>

  ghost predicate WellKeyed(ms: Manifests) {
    forall app :: app in ms ==> ms[app].appId == app
  }

  datatype Event =
    | Request(appId: string, capability: string, call: string, params: Option<ShellRunParams>)
    | ListPending
    | Approve(id: string)
    | Reject(id: string)
    | Reap
    | Tick(elapsed: nat)

  /** What happened so far, oldest first. */
  datatype Entry =
    | AskedFor(id: string, appId: string, command: string, commands: seq<string>)
    | ApproveIssued(id: string)
    | RejectIssued(id: string)
    | Executed(appId: string, command: string, via: Option<string>)

  datatype System = System(store: A.Store, now: nat, log: seq<Entry>)

  const INITIAL := System(A.EMPTY, 0, [])

  function Logged(appId: string, params: Option<ShellRunParams>, effect: Effect): seq<Entry> {
    if params == None then []
    else
      match effect
      case Refused(_) => []
      case Asked(id, commands) => [AskedFor(id, appId, params.value.command, commands)]
      case Ran(via) => [Executed(appId, params.value.command, via)]
  }

  function Next(ms: Manifests, sys: System, event: Event): System {
    match event
    case Request(appId, capability, call, params) =>
      if appId == "" || appId !in ms || capability != "shell" then sys
      else
        var (store', effect) := Decide(ms[appId], call, params, sys.store, sys.now);
        sys.(store := store', log := sys.log + Logged(appId, params, effect))
    case ListPending => sys.(store := A.SweepIn(sys.store, sys.now))
    case Approve(id) => sys.(store := A.ApproveIn(sys.store, id, sys.now), log := sys.log + [ApproveIssued(id)])
    case Reject(id) => sys.(store := A.RejectIn(sys.store, id, sys.now), log := sys.log + [RejectIssued(id)])
    case Reap => sys.(store := A.SweepIn(sys.store, sys.now))
    case Tick(elapsed) => sys.(now := sys.now + elapsed)
  }

  function RunFrom(ms: Manifests, sys: System, events: seq<Event>): System {
    if events == [] then sys
    else Next(ms, RunFrom(ms, sys, events[..|events| - 1]), events[|events| - 1])
  }

  function Run(ms: Manifests, events: seq<Event>): System {
    RunFrom(ms, INITIAL, events)
  }

  // --------------------------------------------- what one request comes to

  function RunRequest(appId: string, command: string, approvalId: Option<string>): Event {
    Request(appId, "shell", "run", Some(ShellRunParams(command, approvalId)))
  }

  /** The record kept of a command that is to be asked for. */
  function RecordAsked(id: string, appId: string, command: string, commands: seq<string>, now: nat): A.ApprovalRecord {
    A.ApprovalRecord(id, appId, "shell", command, commands, A.Pending, now)
  }

  ghost predicate RunsAtOnce(sys: System, sys': System, appId: string, command: string) {
    sys' == sys.(log := sys.log + [Executed(appId, command, None)])
  }

  /** One more record, pending since now, under an id that nothing was stored under. */
  ghost predicate AsksFirst(sys: System, sys': System, appId: string, command: string, commands: seq<string>) {
    exists id ::
      && id !in sys.store.entries
      && sys'.store.entries == sys.store.entries[id := RecordAsked(id, appId, command, commands, sys.now)]
      && sys'.log == sys.log + [AskedFor(id, appId, command, commands)]
  }

  lemma AskingEffect(ms: Manifests, sys: System, appId: string, command: string, commands: seq<string>)
    requires WellKeyed(ms) && A.StoreInv(sys.store) && appId in ms && appId != ""
    requires Parse(command) == Ok(commands) && Policy(ms[appId], commands) == Ask
    ensures AsksFirst(sys, Next(ms, sys, RunRequest(appId, command, None)), appId, command, commands)
  {
    var sys' := Next(ms, sys, RunRequest(appId, command, None));
    A.CreateIsFresh(sys.store, appId, "shell", command, commands, sys.now);
    var id := A.CreateIn(sys.store, appId, "shell", command, commands, sys.now).1;
    assert sys'.store.entries == sys.store.entries[id := RecordAsked(id, appId, command, commands, sys.now)];
  }

  lemma AllowedEffect(ms: Manifests, sys: System, appId: string, command: string)
    requires WellKeyed(ms) && appId in ms && appId != "" && Parse(command).Ok? && Policy(ms[appId], Parse(command).value) == Allow
    ensures RunsAtOnce(sys, Next(ms, sys, RunRequest(appId, command, None)), appId, command)
  {
  }

  lemma DeniedEffect(ms: Manifests, sys: System, appId: string, command: string)
    requires WellKeyed(ms) && appId in ms && appId != "" && Parse(command).Ok? && Policy(ms[appId], Parse(command).value) == Deny
    ensures Next(ms, sys, RunRequest(appId, command, None)) == sys
  {
    assert sys.log + [] == sys.log;
  }

  lemma OutcomesDiffer(sys: System, sys': System, appId: string, command: string, commands: seq<string>)
    ensures RunsAtOnce(sys, sys', appId, command) ==> sys' != sys && !AsksFirst(sys, sys', appId, command, commands)
    ensures AsksFirst(sys, sys', appId, command, commands) ==> sys' != sys
  {
    if RunsAtOnce(sys, sys', appId, command) { assert sys'.log[|sys.log|] == Executed(appId, command, None); }
  }

  /** A request without an approval id, for a known app and a command that parses: told by the app's lists, it runs
      at once, is asked for, or changes nothing. */
  lemma RequestIsDecided(ms: Manifests, sys: System, appId: string, command: string)
    requires WellKeyed(ms) && A.StoreInv(sys.store) && appId in ms && appId != "" && Parse(command).Ok?
    ensures var commands, shell := Parse(command).value, ms[appId].shell;
            var sys' := Next(ms, sys, RunRequest(appId, command, None));
            var allowed := shell.Some? && forall c :: c in commands ==> c in shell.value.allow;
            var listed := shell.Some? && forall c :: c in commands ==> c in shell.value.allow || c in shell.value.ask;
            && (RunsAtOnce(sys, sys', appId, command) <==> allowed)
            && (AsksFirst(sys, sys', appId, command, commands) <==> listed && !allowed)
            && (sys' == sys <==> !listed)
  {
    var commands := Parse(command).value;
    PolicyByLists(ms[appId], commands);
    OutcomesDiffer(sys, Next(ms, sys, RunRequest(appId, command, None)), appId, command, commands);
    match Policy(ms[appId], commands)
    case Allow => AllowedEffect(ms, sys, appId, command);
    case Ask => AskingEffect(ms, sys, appId, command, commands);
    case Deny => DeniedEffect(ms, sys, appId, command);
  }

  /** Everything else that is no request for a known app's shell to run a command that parses leaves no trace. */
  lemma OtherRequestsDoNothing(ms: Manifests, sys: System, event: Event)
    requires event.Request?
    requires event.appId == "" || event.appId !in ms || event.capability != "shell" || event.call != "run" || event.params == None
          || Parse(event.params.value.command).Err?
    ensures Next(ms, sys, event) == sys
  {
    assert sys.log + [] == sys.log;
  }

  /** The error a refused request is answered with. */
  lemma RefusalCodes(manifest: Manifest, call: string, params: Option<ShellRunParams>, store: A.Store, now: nat)
    ensures var effect := Decide(manifest, call, params, store, now).1;
            && (call != "run" ==> effect == Refused(CapabilityError("unknown_method", "unknown shell method: " + call)))
            && (call == "run" && params == None ==> effect == Refused(CapabilityError("invalid_params", "invalid params")))
            && (call == "run" && params.Some? ==>
                  match Parse(params.value.command)
                  case Err(e) => effect == Refused(e)
                  case Ok(commands) =>
                    params.value.approvalId == None && Policy(manifest, commands) == Deny ==>
                      effect.Refused? && effect.error.code == "permission_denied")
  {
  }

  lemma ConsumeDecides(manifest: Manifest, command: string, id: string, store: A.Store, now: nat)
    requires Parse(command).Ok?
    ensures var (store', failure) := A.ConsumeIn(store, id, manifest.appId, "shell", command, now);
            Decide(manifest, "run", Some(ShellRunParams(command, Some(id))), store, now)
            == (store', if failure == None then Ran(Some(id)) else Refused(ConsumeErrorReply(failure.value)))
  {
  }

  /** What a request under an approval id comes to, told by what is stored under it. */
  function UnderApproval(manifest: Manifest, command: string, id: string, store: A.Store, now: nat): Effect {
    if id !in store.entries then Refused(CapabilityError("approval_denied", "approval was rejected or is unavailable"))
    else
      var r := store.entries[id];
      if r.appId != manifest.appId || r.capability != "shell" || r.command != command then
        Refused(CapabilityError("approval_mismatch", "approval_id does not match this command"))
      else if r.state == A.Approved then Ran(Some(id))
      else if r.state == A.Pending && now < r.createdAt + 60_000_000_000 then
        Refused(CapabilityError("approval_denied", "approval is still pending"))
      else Refused(CapabilityError("approval_denied", "approval was rejected or is unavailable"))
  }

  lemma FailureCodes(manifest: Manifest, command: string, id: string, store: A.Store, now: nat)
    requires A.StoreInv(store)
    ensures var failure := A.ConsumeIn(store, id, manifest.appId, "shell", command, now).1;
            UnderApproval(manifest, command, id, store, now)
            == if failure == None then Ran(Some(id)) else Refused(ConsumeErrorReply(failure.value))
  {
    A.ConsumeFailures(store, id, manifest.appId, "shell", command, now);
  }

  /** A request under an approval id is answered by what is stored under that id: run, or refused and why. */
  lemma ApprovalIdCodes(manifest: Manifest, command: string, id: string, store: A.Store, now: nat)
    requires A.StoreInv(store) && Parse(command).Ok?
    ensures Decide(manifest, "run", Some(ShellRunParams(command, Some(id))), store, now).1
         == UnderApproval(manifest, command, id, store, now)
  {
    ConsumeDecides(manifest, command, id, store, now);
    FailureCodes(manifest, command, id, store, now);
  }

  /** And one without, by the policy. */
  lemma PolicyDecides(manifest: Manifest, command: string, store: A.Store, now: nat)
    requires Parse(command).Ok?
    ensures var effect := Decide(manifest, "run", Some(ShellRunParams(command, None)), store, now).1;
            effect.Asked? ==> effect.approvalId == A.CreateIn(store, manifest.appId, "shell", command, Parse(command).value, now).1
  {
  }

  // ------------------------------------------------------------- invariant

  /** The stored record was asked for at i, not rejected since, never used, and approved since if it is Approved. */
  ghost predicate OpenSince(log: seq<Entry>, i: nat, r: A.ApprovalRecord) {
    && i < |log|
    && log[i] == AskedFor(r.approvalId, r.appId, r.command, r.commands)
    && r.capability == "shell"
    && (forall x :: i < x < |log| ==> log[x] != RejectIssued(r.approvalId))
    && (forall x :: 0 <= x < |log| ==> !(log[x].Executed? && log[x].via == Some(r.approvalId)))
    && (r.state == A.Approved ==> exists j :: i < j < |log| && log[j] == ApproveIssued(r.approvalId))
  }

  /** Entry k executes an approved command: asked for at i, approved at j, not rejected in between, not used before. */
  ghost predicate ApprovedRun(log: seq<Entry>, i: nat, j: nat, k: nat, id: string, commands: seq<string>)
    requires k < |log| && log[k].Executed?
  {
    && i < j < k
    && log[i] == AskedFor(id, log[k].appId, log[k].command, commands)
    && log[j] == ApproveIssued(id)
    && (forall x :: i < x < k ==> log[x] != RejectIssued(id))
    && (forall x :: 0 <= x < k ==> !(log[x].Executed? && log[x].via == Some(id)))
  }

  /** What entry k of a log may rest on; it looks back only. */
  ghost predicate Justified(ms: Manifests, log: seq<Entry>, k: nat)
    requires k < |log|
  {
    match log[k]
    case AskedFor(id, appId, command, commands) =>
      appId != "" && appId in ms && Parse(command) == Ok(commands) && Policy(ms[appId], commands) == Ask
    case Executed(appId, command, via) =>
      && Parse(command).Ok?
      && appId in ms
      && (match via
          case None => Policy(ms[appId], Parse(command).value) == Allow
          case Some(id) =>
            && Policy(ms[appId], Parse(command).value) == Ask
            && exists i: nat, j: nat :: ApprovedRun(log, i, j, k, id, Parse(command).value))
    case _ => true
  }

  ghost predicate Mentions(e: Entry, id: string) {
    (e.AskedFor? && e.id == id) || (e.Executed? && e.via == Some(id))
  }

  ghost predicate Inv(ms: Manifests, sys: System) {
    && A.StoreInv(sys.store)
    && (forall id :: id in sys.store.entries ==> exists i: nat :: OpenSince(sys.log, i, sys.store.entries[id]))
    && (forall k, id :: 0 <= k < |sys.log| && Mentions(sys.log[k], id) ==> A.Issued(sys.store, id))
    && (forall k :: 0 <= k < |sys.log| ==> Justified(ms, sys.log, k))
  }

  lemma JustifiedExtends(ms: Manifests, log: seq<Entry>, more: seq<Entry>, k: nat)
    requires k < |log| && Justified(ms, log, k)
    ensures Justified(ms, log + more, k)
  {
    var log' := log + more;
    assert log'[k] == log[k];
    if log[k].Executed? && log[k].via.Some? {
      var id, commands := log[k].via.value, Parse(log[k].command).value;
      var i: nat, j: nat :| ApprovedRun(log, i, j, k, id, commands);
      assert ApprovedRun(log', i, j, k, id, commands);
    }
  }

  /** An open record stays open under any further entry that neither rejects nor uses it. */
  lemma OpenExtends(log: seq<Entry>, i: nat, r: A.ApprovalRecord, more: seq<Entry>, r': A.ApprovalRecord)
    requires OpenSince(log, i, r)
    requires r' == r.(state := r'.state)
    requires forall x :: 0 <= x < |more| ==>
      more[x] != RejectIssued(r.approvalId) && !(more[x].Executed? && more[x].via == Some(r.approvalId))
    requires r'.state == A.Approved ==> r.state == A.Approved || ApproveIssued(r.approvalId) in more
    ensures OpenSince(log + more, i, r')
  {
    var log' := log + more;
    if r'.state == A.Approved {
      if r.state == A.Approved {
        var j: nat :| i < j < |log| && log[j] == ApproveIssued(r.approvalId);
        assert log'[j] == ApproveIssued(r.approvalId);
      } else {
        var j :| 0 <= j < |more| && more[j] == ApproveIssued(r.approvalId);
        assert log'[|log| + j] == ApproveIssued(r.approvalId);
      }
    }
  }

  /** The entry does not speak against a stored record of this id. */
  predicate Harmless(e: Entry, id: string) {
    e != RejectIssued(id) && !(e.Executed? && e.via == Some(id))
  }

  lemma RecordsStayOpen(sys: System, store': A.Store, more: seq<Entry>, approved: Option<string>)
    requires forall id :: id in sys.store.entries ==> exists i: nat :: OpenSince(sys.log, i, sys.store.entries[id])
    requires A.Carried(sys.store, store', approved)
    requires approved.Some? ==> ApproveIssued(approved.value) in more
    requires forall e, id :: e in more && id in store'.entries ==> Harmless(e, id)
    requires A.StoreInv(sys.store)
    ensures forall id :: id in store'.entries ==> exists i: nat :: OpenSince(sys.log + more, i, store'.entries[id])
  {
    forall id | id in store'.entries ensures exists i: nat :: OpenSince(sys.log + more, i, store'.entries[id]) {
      var r := sys.store.entries[id];
      var i: nat :| OpenSince(sys.log, i, r);
      forall x | 0 <= x < |more|
        ensures more[x] != RejectIssued(id) && !(more[x].Executed? && more[x].via == Some(id))
      {
        assert Harmless(more[x], id);
      }
      OpenExtends(sys.log, i, r, more, store'.entries[id]);
    }
  }

  lemma LogExtends(ms: Manifests, sys: System, store': A.Store, more: seq<Entry>)
    requires forall k, id :: 0 <= k < |sys.log| && Mentions(sys.log[k], id) ==> A.Issued(sys.store, id)
    requires forall k :: 0 <= k < |sys.log| ==> Justified(ms, sys.log, k)
    requires sys.store.nextId <= store'.nextId
    requires |more| <= 1
    requires more != [] ==> Justified(ms, sys.log + more, |sys.log|)
    requires forall id :: more != [] && Mentions(more[0], id) ==> A.Issued(store', id)
    ensures forall k, id :: 0 <= k < |sys.log + more| && Mentions((sys.log + more)[k], id) ==> A.Issued(store', id)
    ensures forall k :: 0 <= k < |sys.log + more| ==> Justified(ms, sys.log + more, k)
  {
    var log' := sys.log + more;
    forall k | 0 <= k < |log'| ensures Justified(ms, log', k) {
      if k < |sys.log| { JustifiedExtends(ms, sys.log, more, k); }
    }
    forall k, id | 0 <= k < |log'| && Mentions(log'[k], id) ensures A.Issued(store', id) {
      if k < |sys.log| {
        assert A.Issued(sys.store, id);
        var n: nat :| 1 <= n <= sys.store.nextId && id == A.IdOf(n);
        assert 1 <= n <= store'.nextId;
      }
    }
  }

  /** Every step of the invariant that adds no record. */
  lemma StepWithoutCreate(ms: Manifests, sys: System, store': A.Store, more: seq<Entry>, approved: Option<string>)
    requires Inv(ms, sys) && A.StoreInv(store')
    requires A.Carried(sys.store, store', approved)
    requires |more| <= 1
    requires approved.Some? ==> ApproveIssued(approved.value) in more
    requires forall e, id :: e in more && id in store'.entries ==> Harmless(e, id)
    requires more != [] ==> Justified(ms, sys.log + more, |sys.log|)
    requires forall id :: more != [] && Mentions(more[0], id) ==> A.Issued(store', id)
    ensures Inv(ms, sys.(store := store', log := sys.log + more))
  {
    RecordsStayOpen(sys, store', more, approved);
    LogExtends(ms, sys, store', more);
  }

  lemma AskStep(ms: Manifests, sys: System, appId: string, command: string, commands: seq<string>, store': A.Store, newId: string)
    requires Inv(ms, sys) && appId in ms && appId != ""
    requires Parse(command) == Ok(commands) && Policy(ms[appId], commands) == Ask
    requires (store', newId) == A.CreateIn(sys.store, appId, "shell", command, commands, sys.now)
    ensures Inv(ms, sys.(store := store', log := sys.log + [AskedFor(newId, appId, command, commands)]))
  {
    var more := [AskedFor(newId, appId, command, commands)];
    var log' := sys.log + more;
    A.CreateIsFresh(sys.store, appId, "shell", command, commands, sys.now);
    A.PerformKeepsInv(sys.store, A.Call(A.Create(appId, "shell", command, commands), sys.now));
    forall id | id in store'.entries ensures exists i: nat :: OpenSince(log', i, store'.entries[id]) {
      if id == newId {
        forall x | 0 <= x < |log'| ensures !(log'[x].Executed? && log'[x].via == Some(newId)) {
          if x < |sys.log| { assert log'[x] == sys.log[x]; assert !Mentions(sys.log[x], newId); }
        }
        assert OpenSince(log', |sys.log|, store'.entries[newId]);
      } else {
        var r := sys.store.entries[id];
        var i: nat :| OpenSince(sys.log, i, r);
        OpenExtends(sys.log, i, r, more, r);
      }
    }
    assert A.Issued(store', newId);
    LogExtends(ms, sys, store', more);
  }

  /** An open, approved record justifies one execution of its command. */
  lemma OpenJustifies(log: seq<Entry>, i: nat, r: A.ApprovalRecord)
    requires OpenSince(log, i, r) && r.state == A.Approved
    ensures var run := Executed(r.appId, r.command, Some(r.approvalId));
            exists j: nat :: ApprovedRun(log + [run], i, j, |log|, r.approvalId, r.commands)
  {
    var log' := log + [Executed(r.appId, r.command, Some(r.approvalId))];
    var j: nat :| i < j < |log| && log[j] == ApproveIssued(r.approvalId);
    assert ApprovedRun(log', i, j, |log|, r.approvalId, r.commands);
  }

  lemma ConsumeJustified(ms: Manifests, sys: System, appId: string, command: string, id: string)
    requires Inv(ms, sys) && appId in ms
    requires A.ConsumeIn(sys.store, id, appId, "shell", command, sys.now).1 == None
    ensures Justified(ms, sys.log + [Executed(appId, command, Some(id))], |sys.log|)
    ensures A.Issued(sys.store, id)
  {
    var r := sys.store.entries[id];
    A.ConsumedWasApproved(sys.store, id, appId, "shell", command, sys.now);
    var i: nat :| OpenSince(sys.log, i, r);
    assert Justified(ms, sys.log, i);
    OpenJustifies(sys.log, i, r);
  }

  lemma ExecuteStep(ms: Manifests, sys: System, appId: string, command: string, id: string, store': A.Store)
    requires Inv(ms, sys) && A.StoreInv(store')
    requires A.Carried(sys.store, store', None) && id !in store'.entries
    requires Justified(ms, sys.log + [Executed(appId, command, Some(id))], |sys.log|) && A.Issued(sys.store, id)
    ensures Inv(ms, sys.(store := store', log := sys.log + [Executed(appId, command, Some(id))]))
  {
    StepWithoutCreate(ms, sys, store', [Executed(appId, command, Some(id))], None);
  }

  lemma ConsumeStep(ms: Manifests, sys: System, appId: string, command: string, id: string, store': A.Store, failure: Option<A.ConsumeError>)
    requires Inv(ms, sys) && appId in ms
    requires (store', failure) == A.ConsumeIn(sys.store, id, appId, "shell", command, sys.now)
    ensures Inv(ms, sys.(store := store', log := sys.log + if failure == None then [Executed(appId, command, Some(id))] else []))
  {
    A.ConsumeKeeps(sys.store, id, appId, "shell", command, sys.now);
    if failure == None {
      ConsumeJustified(ms, sys, appId, command, id);
      ExecuteStep(ms, sys, appId, command, id, store');
    } else {
      StepWithoutCreate(ms, sys, store', [], None);
    }
  }

  lemma AllowStep(ms: Manifests, sys: System, appId: string, command: string)
    requires Inv(ms, sys) && appId in ms
    requires Parse(command).Ok? && Policy(ms[appId], Parse(command).value) == Allow
    ensures Inv(ms, sys.(log := sys.log + [Executed(appId, command, None)]))
  {
    StepWithoutCreate(ms, sys, sys.store, [Executed(appId, command, None)], None);
  }

  lemma LoggedOfConsume(appId: string, command: string, id: string, failure: Option<A.ConsumeError>)
    ensures var effect := if failure == None then Ran(Some(id)) else Refused(ConsumeErrorReply(failure.value));
            Logged(appId, Some(ShellRunParams(command, Some(id))), effect)
            == if failure == None then [Executed(appId, command, Some(id))] else []
  {
  }

  lemma ApprovedRequestStep(ms: Manifests, sys: System, appId: string, command: string, id: string)
    requires WellKeyed(ms) && Inv(ms, sys) && appId in ms && appId != "" && Parse(command).Ok?
    ensures var params := ShellRunParams(command, Some(id));
            var (store', effect) := Decide(ms[appId], "run", Some(params), sys.store, sys.now);
            Inv(ms, sys.(store := store', log := sys.log + Logged(appId, Some(params), effect)))
  {
    var (store', failure) := A.ConsumeIn(sys.store, id, appId, "shell", command, sys.now);
    ConsumeDecides(ms[appId], command, id, sys.store, sys.now);
    LoggedOfConsume(appId, command, id, failure);
    ConsumeStep(ms, sys, appId, command, id, store', failure);
  }

  lemma UnapprovedRequestStep(ms: Manifests, sys: System, appId: string, command: string)
    requires WellKeyed(ms) && Inv(ms, sys) && appId in ms && appId != "" && Parse(command).Ok?
    ensures var params := ShellRunParams(command, None);
            var (store', effect) := Decide(ms[appId], "run", Some(params), sys.store, sys.now);
            Inv(ms, sys.(store := store', log := sys.log + Logged(appId, Some(params), effect)))
  {
    var commands := Parse(command).value;
    var (store', effect) := Decide(ms[appId], "run", Some(ShellRunParams(command, None)), sys.store, sys.now);
    match Policy(ms[appId], commands)
    case Allow => AllowStep(ms, sys, appId, command);
    case Ask => AskStep(ms, sys, appId, command, commands, store', effect.approvalId);
    case Deny => assert sys.log + [] == sys.log;
  }

  lemma RequestStep(ms: Manifests, sys: System, event: Event)
    requires WellKeyed(ms) && Inv(ms, sys) && event.Request?
    ensures Inv(ms, Next(ms, sys, event))
  {
    if event.appId in ms && event.appId != "" && event.capability == "shell" {
      if event.call == "run" && event.params.Some? && Parse(event.params.value.command).Ok? {
        var params := event.params.value;
        if params.approvalId.Some? {
          ApprovedRequestStep(ms, sys, event.appId, params.command, params.approvalId.value);
        } else {
          UnapprovedRequestStep(ms, sys, event.appId, params.command);
        }
      } else {
        assert Next(ms, sys, event) == sys by {
          assert sys.log + [] == sys.log;
        }
      }
    }
  }

  lemma SweepStep(ms: Manifests, sys: System)
    requires Inv(ms, sys)
    ensures Inv(ms, sys.(store := A.SweepIn(sys.store, sys.now)))
  {
    A.PerformKeepsInv(sys.store, A.Call(A.Reap, sys.now));
    A.SweepCarries(sys.store, sys.now);
    StepWithoutCreate(ms, sys, A.SweepIn(sys.store, sys.now), [], None);
    assert sys.log + [] == sys.log;
  }

  lemma ApproveStep(ms: Manifests, sys: System, id: string)
    requires Inv(ms, sys)
    ensures Inv(ms, Next(ms, sys, Approve(id)))
  {
    A.PerformKeepsInv(sys.store, A.Call(A.Approve(id), sys.now));
    A.ApproveCarries(sys.store, id, sys.now);
    StepWithoutCreate(ms, sys, A.ApproveIn(sys.store, id, sys.now), [ApproveIssued(id)], Some(id));
  }

  lemma RejectStep(ms: Manifests, sys: System, id: string)
    requires Inv(ms, sys)
    ensures Inv(ms, Next(ms, sys, Reject(id)))
  {
    A.PerformKeepsInv(sys.store, A.Call(A.Reject(id), sys.now));
    A.RejectCarries(sys.store, id, sys.now);
    StepWithoutCreate(ms, sys, A.RejectIn(sys.store, id, sys.now), [RejectIssued(id)], None);
  }

  lemma NextKeepsInv(ms: Manifests, sys: System, event: Event)
    requires WellKeyed(ms) && Inv(ms, sys)
    ensures Inv(ms, Next(ms, sys, event))
  {
    match event
    case Request(_, _, _, _) => RequestStep(ms, sys, event);
    case ListPending => SweepStep(ms, sys);
    case Approve(id) => ApproveStep(ms, sys, id);
    case Reject(id) => RejectStep(ms, sys, id);
    case Reap => SweepStep(ms, sys);
    case Tick(_) =>
  }

  lemma {:induction false} RunKeepsInv(ms: Manifests, events: seq<Event>)
    requires WellKeyed(ms)
    ensures Inv(ms, Run(ms, events))
  {
    if events != [] {
      RunKeepsInv(ms, events[..|events| - 1]);
      NextKeepsInv(ms, Run(ms, events[..|events| - 1]), events[|events| - 1]);
    }
  }

  // ------------------------------------------------------------ main result

  /** The execution at k parses and its app's policy is Allow or Ask. It runs without an approval exactly when
      the policy is Allow; otherwise an approval for this very app and command was asked for, then approved,
      not rejected in between, and is used by no other execution in the log. */
  ghost predicate Authorised(ms: Manifests, log: seq<Entry>, k: nat)
    requires k < |log| && log[k].Executed?
  {
    var e := log[k];
    && Parse(e.command).Ok?
    && e.appId in ms
    && Policy(ms[e.appId], Parse(e.command).value) != Deny
    && (e.via == None <==> Policy(ms[e.appId], Parse(e.command).value) == Allow)
    && (e.via.Some? ==>
          && (exists i: nat, j: nat :: ApprovedRun(log, i, j, k, e.via.value, Parse(e.command).value))
          && (forall x :: 0 <= x < |log| && x != k && log[x].Executed? ==> log[x].via != e.via))
  }

  ghost predicate AllAuthorised(ms: Manifests, log: seq<Entry>) {
    forall k :: 0 <= k < |log| && log[k].Executed? ==> Authorised(ms, log, k)
  }

  lemma JustifiedIsAuthorised(ms: Manifests, log: seq<Entry>, k: nat)
    requires forall x :: 0 <= x < |log| ==> Justified(ms, log, x)
    requires k < |log| && log[k].Executed?
    ensures Authorised(ms, log, k)
  {
    assert Justified(ms, log, k);
    if log[k].via.Some? {
      forall x | 0 <= x < |log| && x != k && log[x].Executed? ensures log[x].via != log[k].via {
        assert Justified(ms, log, x);
      }
    }
  }

  /** In every run of requests, decisions, sweeps and clock advances, everything executed is authorised. */
  lemma NothingRunsUnapproved(ms: Manifests, events: seq<Event>)
    requires WellKeyed(ms)
    ensures AllAuthorised(ms, Run(ms, events).log)
  {
    RunKeepsInv(ms, events);
    var log := Run(ms, events).log;
    forall k | 0 <= k < |log| && log[k].Executed? ensures Authorised(ms, log, k) {
      JustifiedIsAuthorised(ms, log, k);
    }
  }

  /** The same told by the lists of the app's manifest, without the policy: what runs unasked has every command name
      on the allow list; what runs with an approval has every name on one of the lists and one that is not on the allow list. */
  lemma ExecutionsAreListed(ms: Manifests, events: seq<Event>, k: nat)
    requires WellKeyed(ms)
    requires k < |Run(ms, events).log| && Run(ms, events).log[k].Executed?
    ensures var e := Run(ms, events).log[k];
            && Parse(e.command).Ok? && e.appId in ms && ms[e.appId].shell.Some?
            && var names, config := Parse(e.command).value, ms[e.appId].shell.value;
               if e.via == None then forall c :: c in names ==> c in config.allow
               else
                 && (forall c :: c in names ==> c in config.allow || c in config.ask)
                 && (exists c :: c in names && c !in config.allow)
  {
    NothingRunsUnapproved(ms, events);
    var e := Run(ms, events).log[k];
    assert Authorised(ms, Run(ms, events).log, k);
    PolicyByLists(ms[e.appId], Parse(e.command).value);
  }

  ghost predicate AskIdsDistinct(log: seq<Entry>) {
    forall a, b :: 0 <= a < b < |log| && log[a].AskedFor? && log[b].AskedFor? ==> log[a].id != log[b].id
  }

  lemma DecideAsksNextId(manifest: Manifest, call: string, params: Option<ShellRunParams>, store: A.Store, now: nat)
    ensures var effect := Decide(manifest, call, params, store, now).1;
            effect.Asked? ==> effect.approvalId == A.IdOf(store.nextId + 1)
  {
    if call == "run" && params.Some? && Parse(params.value.command).Ok? {
      var command := params.value.command;
      if params.value.approvalId.Some? {
        ConsumeDecides(manifest, command, params.value.approvalId.value, store, now);
      } else {
        PolicyDecides(manifest, command, store, now);
      }
    }
  }

  lemma DecideAsksFresh(manifest: Manifest, call: string, params: Option<ShellRunParams>, store: A.Store, now: nat)
    requires A.StoreInv(store)
    ensures var effect := Decide(manifest, call, params, store, now).1;
            effect.Asked? ==> !A.Issued(store, effect.approvalId)
  {
    DecideAsksNextId(manifest, call, params, store, now);
    A.CreateIsFresh(store, "", "", "", [], now);
  }

  lemma NextAsksFresh(ms: Manifests, sys: System, event: Event)
    requires A.StoreInv(sys.store)
    ensures sys.log <= Next(ms, sys, event).log
    ensures |Next(ms, sys, event).log| <= |sys.log| + 1
    ensures |Next(ms, sys, event).log| == |sys.log| + 1 && Next(ms, sys, event).log[|sys.log|].AskedFor? ==>
              !A.Issued(sys.store, Next(ms, sys, event).log[|sys.log|].id)
  {
    if event.Request? && event.appId in ms {
      DecideAsksFresh(ms[event.appId], event.call, event.params, sys.store, sys.now);
    }
  }

  /** Every approval id is asked for once. */
  lemma {:induction false} AskIdsStayDistinct(ms: Manifests, events: seq<Event>)
    requires WellKeyed(ms)
    ensures AskIdsDistinct(Run(ms, events).log)
  {
    if events != [] {
      var sys := Run(ms, events[..|events| - 1]);
      AskIdsStayDistinct(ms, events[..|events| - 1]);
      RunKeepsInv(ms, events[..|events| - 1]);
      NextAsksFresh(ms, sys, events[|events| - 1]);
      assert forall x :: 0 <= x < |sys.log| && sys.log[x].AskedFor? ==> Mentions(sys.log[x], sys.log[x].id);
    }
  }

  /** Nothing executes under an id after its rejection. */
  ghost predicate RejectionsFinal(log: seq<Entry>) {
    forall i, r, k :: 0 <= i < r < k < |log| && log[i].AskedFor? && log[r] == RejectIssued(log[i].id) ==>
      !(log[k].Executed? && log[k].via == Some(log[i].id))
  }

  lemma RejectedRunsNothing(ms: Manifests, log: seq<Entry>, i: nat, r: nat, k: nat)
    requires AskIdsDistinct(log) && i < r < k < |log| && Justified(ms, log, k)
    requires log[i].AskedFor? && log[r] == RejectIssued(log[i].id)
    ensures !(log[k].Executed? && log[k].via == Some(log[i].id))
  {
  }

  /** A rejection is final: an id asked for and then rejected executes nothing in the rest of the run. */
  lemma RejectionIsFinal(ms: Manifests, events: seq<Event>)
    requires WellKeyed(ms)
    ensures RejectionsFinal(Run(ms, events).log)
  {
    RunKeepsInv(ms, events);
    AskIdsStayDistinct(ms, events);
    var log := Run(ms, events).log;
    forall i, r, k | 0 <= i < r < k < |log| && log[i].AskedFor? && log[r] == RejectIssued(log[i].id)
      ensures !(log[k].Executed? && log[k].via == Some(log[i].id))
    {
      RejectedRunsNothing(ms, log, i, r, k);
    }
  }

  /** A request whose approval can be consumed is executed. */
  lemma ApprovedRequestEffect(ms: Manifests, sys: System, appId: string, command: string, id: string)
    requires WellKeyed(ms) && appId in ms && appId != ""
    requires Parse(command).Ok?
    requires A.ConsumeIn(sys.store, id, appId, "shell", command, sys.now).1 == None
    ensures Next(ms, sys, RunRequest(appId, command, Some(id))).log
         == sys.log + [Executed(appId, command, Some(id))]
  {
  }

  lemma AskedRecord(ms: Manifests, sys: System, id: string)
    requires Inv(ms, sys) && id in sys.store.entries
    ensures sys.store.entries[id].appId in ms && sys.store.entries[id].appId != "" && sys.store.entries[id].capability == "shell"
    ensures Parse(sys.store.entries[id].command).Ok?
  {
    var i: nat :| OpenSince(sys.log, i, sys.store.entries[id]);
    assert Justified(ms, sys.log, i);
  }

  // ----------------------------------------------- what an approval is good for

  ghost predicate AllHarmless(entries: seq<Entry>, id: string) {
    forall k :: 0 <= k < |entries| ==> Harmless(entries[k], id)
  }

  /** The call on the approval store that an event comes to, if it comes to one. */
  function CallOf(ms: Manifests, sys: System, event: Event): Option<A.Call> {
    match event
    case Request(appId, capability, call, params) =>
      if appId == "" || appId !in ms || capability != "shell" || call != "run" || params == None || Parse(params.value.command).Err? then None
      else
        var command, commands := params.value.command, Parse(params.value.command).value;
        if params.value.approvalId.Some? then
          Some(A.Call(A.Consume(params.value.approvalId.value, ms[appId].appId, "shell", command), sys.now))
        else if Policy(ms[appId], commands) == Ask then Some(A.Call(A.Create(ms[appId].appId, "shell", command, commands), sys.now))
        else None
    case ListPending => Some(A.Call(A.ListPending, sys.now))
    case Approve(id) => Some(A.Call(A.Approve(id), sys.now))
    case Reject(id) => Some(A.Call(A.Reject(id), sys.now))
    case Reap => Some(A.Call(A.Reap, sys.now))
    case Tick(_) => None
  }

  lemma DecideCalls(ms: Manifests, sys: System, event: Event)
    requires event.Request? && CallOf(ms, sys, event).Some?
    ensures Decide(ms[event.appId], event.call, event.params, sys.store, sys.now).0 == A.Perform(sys.store, CallOf(ms, sys, event).value)
  {
  }

  lemma DecideLeavesStore(ms: Manifests, sys: System, event: Event)
    requires event.Request? && event.appId != "" && event.appId in ms && event.capability == "shell" && CallOf(ms, sys, event).None?
    ensures Decide(ms[event.appId], event.call, event.params, sys.store, sys.now).0 == sys.store
  {
  }

  lemma StoreStep(ms: Manifests, sys: System, event: Event)
    ensures var call := CallOf(ms, sys, event);
            Next(ms, sys, event).store == if call.Some? then A.Perform(sys.store, call.value) else sys.store
  {
    if event.Request? {
      if CallOf(ms, sys, event).Some? {
        DecideCalls(ms, sys, event);
      } else if event.appId != "" && event.appId in ms && event.capability == "shell" {
        DecideLeavesStore(ms, sys, event);
      }
    }
  }

  /** The call rejects the approved record r or uses it. */
  predicate Harms(call: Option<A.Call>, id: string, r: A.ApprovalRecord) {
    call.Some? && (call.value.operation == A.Reject(id) || A.Claims(call.value, id, r))
  }

  lemma ClaimSucceeds(store: A.Store, id: string, appId: string, command: string, target: string, now: nat)
    requires id in store.entries && store.entries[id].state == A.Approved
    ensures target == id && A.ConsumeIn(store, target, appId, "shell", command, now).1 == None
            <==> A.Claims(A.Call(A.Consume(target, appId, "shell", command), now), id, store.entries[id])
  {
  }

  lemma RequestHarm(ms: Manifests, sys: System, event: Event, id: string)
    requires event.Request? && WellKeyed(ms) && id in sys.store.entries && sys.store.entries[id].state == A.Approved
    requires event.appId != "" && event.appId in ms && event.capability == "shell"
    ensures var effect := Decide(ms[event.appId], event.call, event.params, sys.store, sys.now).1;
            AllHarmless(Logged(event.appId, event.params, effect), id) <==> !Harms(CallOf(ms, sys, event), id, sys.store.entries[id])
  {
    var effect := Decide(ms[event.appId], event.call, event.params, sys.store, sys.now).1;
    var more := Logged(event.appId, event.params, effect);
    assert AllHarmless(more, id) <==> effect != Ran(Some(id)) by {
      if effect == Ran(Some(id)) { assert !Harmless(more[0], id); }
    }
    if event.params.Some? && event.params.value.approvalId.Some? {
      ClaimSucceeds(sys.store, id, event.appId, event.params.value.command, event.params.value.approvalId.value, sys.now);
    }
  }

  /** An approved record is rejected or used by an event exactly when the event's log entry says so. */
  lemma HarmIsLogged(ms: Manifests, sys: System, event: Event, id: string) returns (more: seq<Entry>)
    requires WellKeyed(ms) && id in sys.store.entries && sys.store.entries[id].state == A.Approved
    ensures Next(ms, sys, event).log == sys.log + more
    ensures AllHarmless(more, id) <==> !Harms(CallOf(ms, sys, event), id, sys.store.entries[id])
  {
    match event {
      case Request(appId, capability, call, params) =>
        if appId != "" && appId in ms && capability == "shell" {
          RequestHarm(ms, sys, event, id);
          more := Logged(appId, params, Decide(ms[appId], call, params, sys.store, sys.now).1);
        } else {
          more := [];
        }
      case Approve(other) => more := [ApproveIssued(other)];
      case Reject(other) =>
        more := [RejectIssued(other)];
        assert other == id ==> !Harmless(more[0], id);
      case _ => more := [];
    }
  }

  /** From an approval on: the record r is stored as long as the log says nothing against it, and gone afterwards. */
  ghost predicate StandsUnlessHarmed(start: nat, later: System, id: string, r: A.ApprovalRecord)
    requires start <= |later.log|
  {
    if AllHarmless(later.log[start..], id) then id in later.store.entries && later.store.entries[id] == r
    else id !in later.store.entries
  }

  lemma LogOnlyGrows(ms: Manifests, sys: System, event: Event)
    ensures sys.log <= Next(ms, sys, event).log
  {
  }

  lemma KeptByHarmless(ms: Manifests, sys: System, event: Event, id: string) returns (more: seq<Entry>)
    requires WellKeyed(ms) && A.StoreInv(sys.store)
    requires id in sys.store.entries && sys.store.entries[id].state == A.Approved
    ensures Next(ms, sys, event).log == sys.log + more
    ensures var next := Next(ms, sys, event).store;
            if AllHarmless(more, id) then id in next.entries && next.entries[id] == sys.store.entries[id] else id !in next.entries
  {
    more := HarmIsLogged(ms, sys, event, id);
    StoreStep(ms, sys, event);
    var call := CallOf(ms, sys, event);
    if call.Some? { A.ApprovedOutlivesOthers(sys.store, id, call.value); }
  }

  lemma StoreStaysSound(ms: Manifests, sys: System, event: Event, id: string)
    requires A.StoreInv(sys.store) && A.Issued(sys.store, id)
    ensures var next := Next(ms, sys, event).store;
            A.StoreInv(next) && A.Issued(next, id) && (id !in sys.store.entries ==> id !in next.entries)
  {
    StoreStep(ms, sys, event);
    var call := CallOf(ms, sys, event);
    if call.Some? {
      A.PerformKeepsInv(sys.store, call.value);
      A.IssuedStays(sys.store, id, call.value);
      if id !in sys.store.entries { A.RemovedStaysRemovedOnce(sys.store, id, call.value); }
    }
  }

  lemma HarmlessJoin(log: seq<Entry>, more: seq<Entry>, start: nat, id: string)
    requires start <= |log|
    ensures AllHarmless((log + more)[start..], id) <==> AllHarmless(log[start..], id) && AllHarmless(more, id)
  {
    var joined := (log + more)[start..];
    assert joined == log[start..] + more;
    assert forall k :: 0 <= k < |more| ==> joined[|log| - start + k] == more[k];
    assert forall k :: 0 <= k < |log| - start ==> joined[k] == log[start..][k];
  }

  lemma StandsStep(ms: Manifests, start: nat, sys: System, event: Event, id: string, r: A.ApprovalRecord)
    requires WellKeyed(ms) && A.StoreInv(sys.store) && A.Issued(sys.store, id) && r.state == A.Approved
    requires start <= |sys.log| <= |Next(ms, sys, event).log|
    requires StandsUnlessHarmed(start, sys, id, r)
    ensures StandsUnlessHarmed(start, Next(ms, sys, event), id, r)
  {
    if id in sys.store.entries {
      var more := KeptByHarmless(ms, sys, event, id);
      HarmlessJoin(sys.log, more, start, id);
    } else {
      StoreStaysSound(ms, sys, event, id);
      var more := Next(ms, sys, event).log[|sys.log|..];
      LogOnlyGrows(ms, sys, event);
      HarmlessJoin(sys.log, more, start, id);
    }
  }

  lemma {:induction false} ApprovalStands(ms: Manifests, sys: System, id: string, since: seq<Event>)
    requires WellKeyed(ms) && A.StoreInv(sys.store)
    requires id in sys.store.entries && sys.store.entries[id].state == A.Approved
    ensures var later := RunFrom(ms, sys, since);
            && A.StoreInv(later.store) && A.Issued(later.store, id)
            && sys.log <= later.log
            && StandsUnlessHarmed(|sys.log|, later, id, sys.store.entries[id])
  {
    if since != [] {
      var before, event := RunFrom(ms, sys, since[..|since| - 1]), since[|since| - 1];
      ApprovalStands(ms, sys, id, since[..|since| - 1]);
      LogOnlyGrows(ms, before, event);
      StandsStep(ms, |sys.log|, before, event, id, sys.store.entries[id]);
      StoreStaysSound(ms, before, event, id);
    }
  }

  /** The system after the record is approved and anything else happens. */
  function ApprovedSince(ms: Manifests, sys: System, id: string, since: seq<Event>): System {
    RunFrom(ms, Next(ms, sys, Approve(id)), since)
  }

  /** Asked to run under the approval given to it, the record's command is executed. */
  ghost predicate RunsOnceApproved(ms: Manifests, sys: System, id: string, since: seq<Event>)
    requires id in sys.store.entries
  {
    var r := sys.store.entries[id];
    var later := ApprovedSince(ms, sys, id, since);
    Next(ms, later, RunRequest(r.appId, r.command, Some(id))).log
    == later.log + [Executed(r.appId, r.command, Some(id))]
  }

  lemma UnavailableDoesNotRun(ms: Manifests, sys: System, appId: string, command: string, id: string)
    requires id !in sys.store.entries
    ensures Next(ms, sys, RunRequest(appId, command, Some(id))).log == sys.log
  {
  }

  /** What approving a stored record leaves in the store. */
  lemma ApprovedRecord(ms: Manifests, sys: System, id: string)
    requires WellKeyed(ms) && Inv(ms, sys) && id in sys.store.entries
    ensures var approved := Next(ms, sys, Approve(id));
            && A.StoreInv(approved.store)
            && approved.log == sys.log + [ApproveIssued(id)]
            && id in approved.store.entries
            && approved.store.entries[id] == sys.store.entries[id].(state := A.Approved)
  {
    ApproveStep(ms, sys, id);
  }

  lemma StoredRuns(ms: Manifests, later: System, id: string, r: A.ApprovalRecord)
    requires WellKeyed(ms) && r.appId in ms && r.appId != "" && r.capability == "shell" && Parse(r.command).Ok?
    requires id in later.store.entries ==> later.store.entries[id] == r.(state := A.Approved)
    ensures (Next(ms, later, RunRequest(r.appId, r.command, Some(id))).log
             == later.log + [Executed(r.appId, r.command, Some(id))])
            <==> id in later.store.entries
  {
    if id in later.store.entries {
      ClaimSucceeds(later.store, id, r.appId, r.command, id, later.now);
      ApprovedRequestEffect(ms, later, r.appId, r.command, id);
    } else {
      UnavailableDoesNotRun(ms, later, r.appId, r.command, id);
    }
  }

  lemma SinceApproval(log: seq<Entry>, later: seq<Entry>, id: string)
    requires log + [ApproveIssued(id)] <= later
    ensures AllHarmless(later[|log|..], id) <==> AllHarmless(later[|log| + 1..], id)
  {
    HarmlessJoin([ApproveIssued(id)], later[|log| + 1..], 0, id);
    assert later[|log|..] == [ApproveIssued(id)] + later[|log| + 1..];
    assert ([ApproveIssued(id)] + later[|log| + 1..])[0..] == later[|log|..];
    assert [ApproveIssued(id)][0..] == [ApproveIssued(id)];
  }

  lemma OpenRecordRuns(ms: Manifests, sys: System, id: string, since: seq<Event>)
    requires WellKeyed(ms) && Inv(ms, sys) && id in sys.store.entries
    ensures var later := ApprovedSince(ms, sys, id, since);
            && |sys.log| <= |later.log|
            && (RunsOnceApproved(ms, sys, id, since) <==> AllHarmless(later.log[|sys.log|..], id))
  {
    AskedRecord(ms, sys, id);
    ApprovedRecord(ms, sys, id);
    ApprovalStands(ms, Next(ms, sys, Approve(id)), id, since);
    var later := ApprovedSince(ms, sys, id, since);
    SinceApproval(sys.log, later.log, id);
    StoredRuns(ms, later, id, sys.store.entries[id]);
  }

  /** The converse for every stored record of every run: once approved, and whatever else happens then, the
      command it was asked for runs on request exactly as long as the record was neither rejected nor used. */
  lemma ApprovedRequestRuns(ms: Manifests, events: seq<Event>, id: string, since: seq<Event>)
    requires WellKeyed(ms) && id in Run(ms, events).store.entries
    ensures var sys := Run(ms, events);
            var later := ApprovedSince(ms, sys, id, since);
            && |sys.log| <= |later.log|
            && (RunsOnceApproved(ms, sys, id, since) <==> AllHarmless(later.log[|sys.log|..], id))
  {
    RunKeepsInv(ms, events);
    OpenRecordRuns(ms, Run(ms, events), id, since);
  }
}
