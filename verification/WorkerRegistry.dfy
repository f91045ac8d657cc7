/** Registered workers, indexed by worker id and by app id. */
module WorkerRegistry {
  import opened Basics

  type AppId = string
  type WorkerId = string

  datatype WorkerCapability = WorkerCapability(name: string, description: Option<string>)

  datatype RegisterWorkerRequest = RegisterWorkerRequest(workerId: WorkerId, appId: AppId, capabilities: seq<WorkerCapability>)

  datatype RegisteredWorker = RegisteredWorker(workerId: WorkerId, appId: AppId, capabilities: seq<WorkerCapability>)

  datatype RegisterWorkerResponse = RegisterWorkerResponse(workerId: WorkerId, accepted: bool, message: Option<string>)

  /** The two indexes describe one bijection between apps and workers. */
  ghost predicate MutuallyInverse(workers: map<WorkerId, RegisteredWorker>, appWorkers: map<AppId, WorkerId>) {
    && (forall w :: w in workers ==>
          && workers[w].workerId == w
          && workers[w].appId in appWorkers
          && appWorkers[workers[w].appId] == w)
    && (forall a :: a in appWorkers ==> appWorkers[a] in workers && workers[appWorkers[a]].appId == a)
  }

  /** Registering takes the app from its old worker, the worker from its old app, and pairs the two. */
  function Paired(appWorkers: map<AppId, WorkerId>, appId: AppId, workerId: WorkerId): map<AppId, WorkerId> {
    (map a | a in appWorkers && a != appId && appWorkers[a] != workerId :: appWorkers[a])[appId := workerId]
  }

  /** The same for the index by worker: whoever held the worker id or the app is gone. */
  function Enrolled(workers: map<WorkerId, RegisteredWorker>, request: RegisterWorkerRequest): map<WorkerId, RegisteredWorker> {
    (map w | w in workers && w != request.workerId && workers[w].appId != request.appId :: workers[w])
      [request.workerId := RegisteredWorker(request.workerId, request.appId, request.capabilities)]
  }

  lemma PairingKeepsInverse(workers: map<WorkerId, RegisteredWorker>, appWorkers: map<AppId, WorkerId>, request: RegisterWorkerRequest)
    requires MutuallyInverse(workers, appWorkers)
    ensures MutuallyInverse(Enrolled(workers, request), Paired(appWorkers, request.appId, request.workerId))
  {
  }

  /** What is registered afterwards: the new worker with all it named, for its app; every other pair that shares neither. */
  lemma RegisteredAfter(workers: map<WorkerId, RegisteredWorker>, appWorkers: map<AppId, WorkerId>, request: RegisterWorkerRequest)
    requires MutuallyInverse(workers, appWorkers)
    ensures var (workers', appWorkers') := (Enrolled(workers, request), Paired(appWorkers, request.appId, request.workerId));
            && request.workerId in workers' && request.appId in appWorkers' && appWorkers'[request.appId] == request.workerId
            && workers'[request.workerId] == RegisteredWorker(request.workerId, request.appId, request.capabilities)
            && (forall w :: w != request.workerId ==>
                  (w in workers' <==> w in workers && workers[w].appId != request.appId) && (w in workers' ==> workers'[w] == workers[w]))
            && (forall a :: a != request.appId ==>
                  (a in appWorkers' <==> a in appWorkers && appWorkers[a] != request.workerId)
                  && (a in appWorkers' ==> appWorkers'[a] == appWorkers[a]))
  {
  }

  lemma {:induction false} SameSize(workers: map<WorkerId, RegisteredWorker>, appWorkers: map<AppId, WorkerId>)
    requires MutuallyInverse(workers, appWorkers)
    ensures |workers| == |appWorkers|
    decreases |workers|
  {
    if workers == map[] {
      assert appWorkers.Keys == {} by {
        forall a ensures a !in appWorkers {
          if a in appWorkers { assert false; }
        }
      }
      assert |appWorkers.Keys| == 0;
    } else {
      var w :| w in workers;
      var a := workers[w].appId;
      var workers', appWorkers' := workers - {w}, appWorkers - {a};
      SameSize(workers', appWorkers');
      assert workers.Keys == workers'.Keys + {w} && appWorkers.Keys == appWorkers'.Keys + {a};
      assert |workers.Keys| == |workers'.Keys| + 1 && |appWorkers.Keys| == |appWorkers'.Keys| + 1;
    }
  }

  class Registry {
    var workers: map<WorkerId, RegisteredWorker>
    var appWorkers: map<AppId, WorkerId>

    ghost predicate Valid()
      reads this
    {
      MutuallyInverse(workers, appWorkers)
    }

    constructor ()
      ensures Valid()
      ensures workers == map[] && appWorkers == map[]
    {
      workers := map[];
      appWorkers := map[];
    }

    method Register(request: RegisterWorkerRequest) returns (response: RegisterWorkerResponse)
      requires Valid()
      modifies this
      ensures Valid()
      ensures appWorkers == Paired(old(appWorkers), request.appId, request.workerId)
      ensures workers == Enrolled(old(workers), request)
      ensures response == RegisterWorkerResponse(request.workerId, true, None)
    {
      var workerId, appId := request.workerId, request.appId;
      if workerId in workers {
        var existing := workers[workerId];
        if existing.appId != appId && existing.appId in appWorkers && appWorkers[existing.appId] == workerId {
          appWorkers := appWorkers - {existing.appId};
        }
      }
      assert forall a :: a in old(appWorkers) && a != appId ==> (a in appWorkers <==> old(appWorkers)[a] != workerId);
      var replaced := if appId in appWorkers then Some(appWorkers[appId]) else None;
      appWorkers := appWorkers[appId := workerId];
      assert appWorkers == Paired(old(appWorkers), appId, workerId);
      if replaced.Some? && replaced.value != workerId {
        workers := workers - {replaced.value};
      }
      assert forall w :: w in old(workers) && w != workerId ==> (w in workers <==> old(workers)[w].appId != appId);
      workers := workers[workerId := RegisteredWorker(workerId, appId, request.capabilities)];
      assert workers == Enrolled(old(workers), request);
      PairingKeepsInverse(old(workers), old(appWorkers), request);
      response := RegisterWorkerResponse(workerId, true, None);
    }

    method Remove(workerId: WorkerId) returns (removed: Option<RegisteredWorker>)
      requires Valid()
      modifies this
      ensures Valid()
      ensures removed == if workerId in old(workers) then Some(old(workers)[workerId]) else None
      ensures workers == old(workers) - {workerId}
      ensures appWorkers == map a | a in old(appWorkers) && old(appWorkers)[a] != workerId :: old(appWorkers)[a]
    {
      if workerId !in workers {
        assert workers == workers - {workerId};
        return None;
      }
      var registered := workers[workerId];
      workers := workers - {workerId};
      if registered.appId in appWorkers && appWorkers[registered.appId] == workerId {
        appWorkers := appWorkers - {registered.appId};
      }
      removed := Some(registered);
    }

    method RemoveByAppId(appId: AppId) returns (removed: Option<RegisteredWorker>)
      requires Valid()
      modifies this
      ensures Valid()
      ensures removed == if appId in old(appWorkers) then Some(old(workers)[old(appWorkers)[appId]]) else None
      ensures appWorkers == old(appWorkers) - {appId}
      ensures workers == map w | w in old(workers) && old(workers)[w].appId != appId :: old(workers)[w]
    {
      if appId !in appWorkers {
        assert appWorkers == appWorkers - {appId};
        return None;
      }
      var workerId := appWorkers[appId];
      appWorkers := appWorkers - {appId};
      removed := if workerId in workers then Some(workers[workerId]) else None;
      workers := workers - {workerId};
    }

    function Get(workerId: WorkerId): Option<RegisteredWorker>
      reads this
    {
      if workerId in workers then Some(workers[workerId]) else None
    }

    function GetByAppId(appId: AppId): Option<RegisteredWorker>
      requires Valid()
      reads this
    {
      if appId in appWorkers then Get(appWorkers[appId]) else None
    }

    /** Looking up by app and by worker agree. */
    lemma LookupsAgree(appId: AppId, workerId: WorkerId)
      requires Valid()
      ensures (GetByAppId(appId).Some? && GetByAppId(appId).value.workerId == workerId)
         <==> (Get(workerId).Some? && Get(workerId).value.appId == appId)
      ensures |workers| == |appWorkers|
    {
      SameSize(workers, appWorkers);
    }
  }
}
