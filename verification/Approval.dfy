/** The store of approval records: fresh ids, a time limit on pending records, single use. */
module Approval {
  import opened Basics
  import opened Text

  datatype ApprovalState = Pending | Approved | Rejected | Expired

  datatype ApprovalRecord = ApprovalRecord(
    approvalId: string,
    appId: string,
    capability: string,
    command: string,
    commands: seq<string>,
    state: ApprovalState,
    createdAt: nat)

  datatype PendingApproval = PendingApproval(approvalId: string, appId: string, capability: string, summary: string)

  datatype ConsumeError = NotFound | StillPending | WasRejected | WasExpired | Mismatch

  /** A pending record lives for 60 seconds; instants count nanoseconds. */
  const APPROVAL_TTL: nat := 60_000_000_000

  type Entries = map<string, ApprovalRecord>

  /** The two fields of the store as a value. */
  datatype Store = Store(entries: Entries, nextId: nat)

  const EMPTY := Store(map[], 0)

  // ------------------------------------------------------------------- ids

  function IdOf(n: nat): string {
    "approval-" + Decimal(n)
  }

  /** Two counter values never print to the same id. */
  lemma IdOfInjective(a: nat, b: nat)
    requires IdOf(a) == IdOf(b)
    ensures a == b
  {
    assert IdOf(a)[|"approval-"|..] == Decimal(a);
    assert IdOf(b)[|"approval-"|..] == Decimal(b);
    DecimalInverse(a);
    DecimalInverse(b);
  }

  /** What an id looks like. */
  lemma IdText()
    ensures IdOf(1) == "approval-1" && IdOf(10) == "approval-10"
  {
    assert Decimal(10) == Decimal(1) + "0";
  }

  /** An id the counter has handed out. */
  ghost predicate Issued(store: Store, id: string) {
    exists n: nat :: 1 <= n <= store.nextId && id == IdOf(n)
  }

  // ------------------------------------------------- what each call does

  predicate TimedOut(r: ApprovalRecord, now: nat) {
    r.state == Pending && now >= r.createdAt && now - r.createdAt >= APPROVAL_TTL
  }

  function ExpireRecord(r: ApprovalRecord, now: nat): ApprovalRecord {
    if TimedOut(r, now) then r.(state := Expired) else r
  }

  function ExpireAll(m: Entries, now: nat): Entries {
    map id | id in m :: ExpireRecord(m[id], now)
  }

  predicate Terminal(r: ApprovalRecord) {
    r.state in {Rejected, Expired}
  }

  function DropTerminal(m: Entries): Entries {
    map id | id in m && !Terminal(m[id]) :: m[id]
  }

  function WithState(m: Entries, id: string, state: ApprovalState): Entries {
    if id in m then m[id := m[id].(state := state)] else m
  }

  function Without(m: Entries, id: string): Entries {
    map k | k in m && k != id :: m[k]
  }

  function CreateIn(s: Store, appId: string, capability: string, command: string, commands: seq<string>, now: nat): (Store, string) {
    var id := IdOf(s.nextId + 1);
    (Store(s.entries[id := ApprovalRecord(id, appId, capability, command, commands, Pending, now)], s.nextId + 1), id)
  }

  function SweepIn(s: Store, now: nat): Store {
    s.(entries := DropTerminal(ExpireAll(s.entries, now)))
  }

  function ApproveIn(s: Store, id: string, now: nat): Store {
    s.(entries := DropTerminal(WithState(ExpireAll(s.entries, now), id, Approved)))
  }

  function RejectIn(s: Store, id: string, now: nat): Store {
    s.(entries := DropTerminal(WithState(ExpireAll(s.entries, now), id, Rejected)))
  }

  function ConsumeIn(s: Store, id: string, appId: string, capability: string, command: string, now: nat): (Store, Option<ConsumeError>) {
    var m := ExpireAll(s.entries, now);
    if id !in m then (s.(entries := m), Some(NotFound))
    else if m[id].appId != appId || m[id].capability != capability || m[id].command != command then
      (s.(entries := m), Some(Mismatch))
    else
      match m[id].state
      case Pending => (s.(entries := m), Some(StillPending))
      case Rejected => (s.(entries := Without(m, id)), Some(WasRejected))
      case Expired => (s.(entries := Without(m, id)), Some(WasExpired))
      case Approved => (s.(entries := Without(m, id)), None)
  }

  // ------------------------------------------------------ the listing order

  /** Strings in the order of their code points, the order of the map's keys. */
  predicate Before(a: string, b: string)
    decreases a
  {
    b != "" && (a == "" || a[0] < b[0] || (a[0] == b[0] && Before(a[1..], b[1..])))
  }

  lemma {:induction false} BeforeTotal(a: string, b: string)
    ensures a == b || Before(a, b) || Before(b, a)
    decreases a
  {
    if a != "" && b != "" && a[0] == b[0] {
      BeforeTotal(a[1..], b[1..]);
      assert a == [a[0]] + a[1..] && b == [b[0]] + b[1..];
    }
  }

  lemma {:induction false} BeforeTransitive(a: string, b: string, c: string)
    requires Before(a, b) && Before(b, c)
    ensures Before(a, c)
    decreases a
  {
    if a != "" && a[0] == b[0] == c[0] {
      BeforeTransitive(a[1..], b[1..], c[1..]);
    }
  }

  /** The order in its usual words: the strings agree up to some position, where the first ends or has the smaller character. */
  lemma {:induction false} BeforeMeans(a: string, b: string)
    ensures Before(a, b) <==>
      exists k :: 0 <= k <= |a| && k < |b| && a[..k] == b[..k] && (k == |a| || a[k] < b[k])
    decreases a
  {
    if a != "" && b != "" && a[0] == b[0] {
      var x, y := a[1..], b[1..];
      BeforeMeans(x, y);
      forall k | 0 <= k <= |x| && k <= |y| ensures a[..k + 1] == [a[0]] + x[..k] && b[..k + 1] == [b[0]] + y[..k] {}
      if k :| 0 <= k <= |x| && k < |y| && x[..k] == y[..k] && (k == |x| || x[k] < y[k]) {
        assert a[..k + 1] == b[..k + 1];
      }
      if k :| 0 <= k <= |a| && k < |b| && a[..k] == b[..k] && (k == |a| || a[k] < b[k]) {
        assert k > 0;
        assert x[..k - 1] == a[..k][1..] && y[..k - 1] == b[..k][1..];
        assert k - 1 == |x| || x[k - 1] < y[k - 1];
      }
    } else if a == "" && b != "" {
      assert a[..0] == b[..0];
    } else if a != "" && b != "" {
      assert a[..0] == b[..0];
      forall k | 0 < k <= |a| && k <= |b| ensures a[..k][0] == a[0] && b[..k][0] == b[0] {}
    }
  }

  ghost predicate IsLeast(id: string, ids: set<string>) {
    id in ids && forall o :: o in ids && o != id ==> Before(id, o)
  }

  lemma {:induction false} LeastExists(ids: set<string>) returns (least: string)
    requires ids != {}
    ensures IsLeast(least, ids)
    decreases |ids|
  {
    var some :| some in ids;
    var rest := ids - {some};
    assert ids == rest + {some};
    if rest == {} {
      least := some;
    } else {
      var l := LeastExists(rest);
      BeforeTotal(some, l);
      if Before(some, l) {
        least := some;
        forall o | o in ids && o != some ensures Before(some, o) {
          if o != l { BeforeTransitive(some, l, o); }
        }
      } else {
        least := l;
      }
    }
  }

  function Summary(r: ApprovalRecord): PendingApproval {
    PendingApproval(r.approvalId, r.appId, r.capability, r.command)
  }

  /** The pending records among the keys of m, each once, in key order. */
  ghost predicate IsListing(ids: seq<string>, m: Entries) {
    && (forall i, j :: 0 <= i < j < |ids| ==> Before(ids[i], ids[j]))
    && (forall id :: id in ids <==> id in m && m[id].state == Pending)
  }

  /** The listing of the keys that are not in todo, all of which come before those that are. */
  ghost predicate ListedUpTo(ids: seq<string>, m: Entries, todo: set<string>) {
    && todo <= m.Keys
    && (forall i, j :: 0 <= i < j < |ids| ==> Before(ids[i], ids[j]))
    && (forall i, o :: 0 <= i < |ids| && o in todo ==> Before(ids[i], o))
    && (forall id :: id in ids <==> id in m && id !in todo && m[id].state == Pending)
  }

  lemma ListOneMore(ids: seq<string>, m: Entries, todo: set<string>, id: string)
    requires ListedUpTo(ids, m, todo) && IsLeast(id, todo)
    ensures ListedUpTo(if m[id].state == Pending then ids + [id] else ids, m, todo - {id})
  {
  }

  // --------------------------------------------------------------- the class

  class ApprovalStore {
    var entries: Entries
    var nextId: nat

    function Contents(): Store
      reads this
    {
      Store(entries, nextId)
    }

    constructor ()
      ensures Contents() == EMPTY
    {
      entries := map[];
      nextId := 0;
    }

    method Create(appId: string, capability: string, command: string, commands: seq<string>, now: nat) returns (id: string)
      modifies this
      ensures (Contents(), id) == CreateIn(old(Contents()), appId, capability, command, commands, now)
    {
      nextId := nextId + 1;
      id := IdOf(nextId);
      entries := entries[id := ApprovalRecord(id, appId, capability, command, commands, Pending, now)];
    }

    method ExpirePendingEntries(now: nat)
      modifies this`entries
      ensures entries == ExpireAll(old(entries), now)
    {
      var todo := entries.Keys;
      while todo != {}
        invariant todo <= entries.Keys == old(entries).Keys
        invariant forall id :: id in entries ==>
          entries[id] == if id in todo then old(entries)[id] else ExpireRecord(old(entries)[id], now)
        decreases |todo|
      {
        var id :| id in todo;
        todo := todo - {id};
        if entries[id].state == Pending && now >= entries[id].createdAt && now - entries[id].createdAt >= APPROVAL_TTL {
          entries := entries[id := entries[id].(state := Expired)];
        }
      }
    }

    method DropTerminalEntries()
      modifies this`entries
      ensures entries == DropTerminal(old(entries))
    {
      entries := map id | id in entries && entries[id].state != Rejected && entries[id].state != Expired :: entries[id];
    }

    /** The map hands out its keys in order. */
    method FirstKey(keys: set<string>) returns (id: string)
      requires keys != {}
      ensures IsLeast(id, keys)
    {
      ghost var least := LeastExists(keys);
      id :| id in keys && forall o :: o in keys && o != id ==> Before(id, o);
    }

    method PendingSummaries() returns (approvals: seq<PendingApproval>, ghost ids: seq<string>)
      ensures IsListing(ids, entries) && |approvals| == |ids|
      ensures forall k :: 0 <= k < |ids| ==> ids[k] in entries && approvals[k] == Summary(entries[ids[k]])
    {
      approvals, ids := [], [];
      var todo := entries.Keys;
      while todo != {}
        invariant ListedUpTo(ids, entries, todo)
        invariant |approvals| == |ids|
        invariant forall k :: 0 <= k < |ids| ==> ids[k] in entries && approvals[k] == Summary(entries[ids[k]])
        decreases |todo|
      {
        var id := FirstKey(todo);
        ListOneMore(ids, entries, todo, id);
        todo := todo - {id};
        if entries[id].state == Pending {
          approvals := approvals + [Summary(entries[id])];
          ids := ids + [id];
        }
      }
    }

    /** ids: the keys of the records shown. */
    method ListPending(now: nat) returns (approvals: seq<PendingApproval>, ghost ids: seq<string>)
      modifies this`entries
      ensures Contents() == SweepIn(old(Contents()), now)
      ensures IsListing(ids, ExpireAll(old(entries), now)) && |approvals| == |ids|
      ensures forall k :: 0 <= k < |ids| ==> ids[k] in old(entries) && approvals[k] == Summary(old(entries)[ids[k]])
    {
      ExpirePendingEntries(now);
      approvals, ids := PendingSummaries();
      DropTerminalEntries();
    }

    method Approve(id: string, now: nat)
      modifies this`entries
      ensures Contents() == ApproveIn(old(Contents()), id, now)
    {
      ExpirePendingEntries(now);
      if id in entries {
        entries := entries[id := entries[id].(state := Approved)];
      }
      DropTerminalEntries();
    }

    method Reject(id: string, now: nat)
      modifies this`entries
      ensures Contents() == RejectIn(old(Contents()), id, now)
    {
      ExpirePendingEntries(now);
      if id in entries {
        entries := entries[id := entries[id].(state := Rejected)];
      }
      DropTerminalEntries();
    }

    method ConsumeApproved(id: string, appId: string, capability: string, command: string, now: nat)
      returns (failure: Option<ConsumeError>)
      modifies this`entries
      ensures (Contents(), failure) == ConsumeIn(old(Contents()), id, appId, capability, command, now)
    {
      ExpirePendingEntries(now);
      if id !in entries {
        return Some(NotFound);
      }
      var entry := entries[id];
      if entry.appId != appId || entry.capability != capability || entry.command != command {
        return Some(Mismatch);
      }
      match entry.state
      case Pending =>
        return Some(StillPending);
      case Rejected =>
        entries := Without(entries, id);
        return Some(WasRejected);
      case Expired =>
        entries := Without(entries, id);
        return Some(WasExpired);
      case Approved =>
        entries := Without(entries, id);
        return None;
    }

    method ReapExpired(now: nat)
      modifies this`entries
      ensures Contents() == SweepIn(old(Contents()), now)
    {
      ExpirePendingEntries(now);
      DropTerminalEntries();
    }
  }

  // ------------------------------------------------- every run of the store

  datatype Operation =
    | Create(appId: string, capability: string, command: string, commands: seq<string>)
    | ListPending
    | Approve(id: string)
    | Reject(id: string)
    | Consume(id: string, appId: string, capability: string, command: string)
    | Reap

  /** An operation and the instant at which it is called. */
  datatype Call = Call(operation: Operation, now: nat)

  function Perform(s: Store, call: Call): Store {
    match call.operation
    case Create(appId, capability, command, commands) => CreateIn(s, appId, capability, command, commands, call.now).0
    case ListPending => SweepIn(s, call.now)
    case Approve(id) => ApproveIn(s, id, call.now)
    case Reject(id) => RejectIn(s, id, call.now)
    case Consume(id, appId, capability, command) => ConsumeIn(s, id, appId, capability, command, call.now).0
    case Reap => SweepIn(s, call.now)
  }

  function PerformAll(s: Store, calls: seq<Call>): Store {
    if calls == [] then s else Perform(PerformAll(s, calls[..|calls| - 1]), calls[|calls| - 1])
  }

  /** What holds between calls: records sit under their own issued id, and none is Rejected. */
  ghost predicate StoreInv(s: Store) {
    forall id :: id in s.entries ==>
      s.entries[id].approvalId == id && Issued(s, id) && s.entries[id].state != Rejected
  }

  /** A consume leaves the store with its overdue records expired, or that without the named record. */
  lemma ConsumeShape(s: Store, id: string, appId: string, capability: string, command: string, now: nat)
    ensures var m := ExpireAll(s.entries, now);
            var (s', failure) := ConsumeIn(s, id, appId, capability, command, now);
            && (s' == s.(entries := m) || s' == s.(entries := Without(m, id)))
            && (failure == None ==> s' == s.(entries := Without(m, id)))
  {
  }

  lemma SurvivorOfConsume(s: Store, id: string, target: string, appId: string, capability: string, command: string, now: nat)
    requires StoreInv(s)
    requires id in ConsumeIn(s, target, appId, capability, command, now).0.entries
    ensures id in s.entries
    ensures ConsumeIn(s, target, appId, capability, command, now).0.entries[id] == ExpireRecord(s.entries[id], now)
  {
    ConsumeShape(s, target, appId, capability, command, now);
  }

  /** Where a record stored after a call comes from. */
  lemma Survivor(s: Store, call: Call, id: string)
    requires StoreInv(s)
    requires id in Perform(s, call).entries
    ensures Perform(s, call).entries[id].approvalId == id && Perform(s, call).entries[id].state != Rejected
    ensures id in s.entries || (call.operation.Create? && id == IdOf(s.nextId + 1))
  {
    match call.operation
    case Create(appId, capability, command, commands) =>
    case ListPending =>
    case Approve(target) =>
    case Reject(target) =>
    case Consume(target, appId, capability, command) =>
      SurvivorOfConsume(s, id, target, appId, capability, command, call.now);
    case Reap =>
  }

  lemma CounterGrows(s: Store, call: Call)
    ensures Perform(s, call).nextId == if call.operation.Create? then s.nextId + 1 else s.nextId
  {
  }

  lemma PerformKeepsInv(s: Store, call: Call)
    requires StoreInv(s)
    ensures StoreInv(Perform(s, call))
    ensures s.nextId <= Perform(s, call).nextId
  {
    var s' := Perform(s, call);
    CounterGrows(s, call);
    forall id | id in s'.entries ensures s'.entries[id].approvalId == id && Issued(s', id) && s'.entries[id].state != Rejected {
      Survivor(s, call, id);
      if id in s.entries {
        var n: nat :| 1 <= n <= s.nextId && id == IdOf(n);
        assert 1 <= n <= s'.nextId;
      }
    }
  }

  lemma {:induction false} RunsKeepInv(calls: seq<Call>)
    ensures StoreInv(PerformAll(EMPTY, calls))
  {
    if calls != [] {
      RunsKeepInv(calls[..|calls| - 1]);
      PerformKeepsInv(PerformAll(EMPTY, calls[..|calls| - 1]), calls[|calls| - 1]);
    }
  }

  /** A new record takes an id that no stored record has and that was never issued. */
  lemma CreateIsFresh(s: Store, appId: string, capability: string, command: string, commands: seq<string>, now: nat)
    requires StoreInv(s)
    ensures CreateIn(s, appId, capability, command, commands, now).1 !in s.entries
    ensures !Issued(s, CreateIn(s, appId, capability, command, commands, now).1)
  {
    if n: nat :| 1 <= n <= s.nextId && IdOf(s.nextId + 1) == IdOf(n) {
      IdOfInjective(n, s.nextId + 1);
    }
  }

  lemma IssuedStays(s: Store, id: string, call: Call)
    requires Issued(s, id)
    ensures Issued(Perform(s, call), id)
  {
    CounterGrows(s, call);
    var n: nat :| 1 <= n <= s.nextId && id == IdOf(n);
    assert 1 <= n <= Perform(s, call).nextId;
  }

  /** What is stored of a request when it is made, and how it is shown: its own app, capability and command, for
      sixty seconds and no longer. */
  lemma CreatedIsShown(s: Store, appId: string, capability: string, command: string, commands: seq<string>, now: nat, later: nat, ids: seq<string>)
    requires StoreInv(s)
    requires var s' := CreateIn(s, appId, capability, command, commands, now).0; IsListing(ids, ExpireAll(s'.entries, later))
    ensures var (s', id) := CreateIn(s, appId, capability, command, commands, now);
            && (id in ids <==> later < now + 60_000_000_000)
            && id in s'.entries && s'.entries[id].commands == commands
            && Summary(s'.entries[id]) == PendingApproval(id, appId, capability, command)
            && (forall k :: k != id ==> (k in s'.entries <==> k in s.entries) && (k in s.entries ==> s'.entries[k] == s.entries[k]))
  {
    CreateIsFresh(s, appId, capability, command, commands, now);
  }

  lemma RemovedStaysRemovedOnce(s: Store, id: string, call: Call)
    requires StoreInv(s) && Issued(s, id) && id !in s.entries
    ensures Issued(Perform(s, call), id) && id !in Perform(s, call).entries
  {
    IssuedStays(s, id, call);
    var n: nat :| 1 <= n <= s.nextId && id == IdOf(n);
    if id == IdOf(s.nextId + 1) { IdOfInjective(n, s.nextId + 1); }
    if id in Perform(s, call).entries { Survivor(s, call, id); }
  }

  /** An issued id that is no longer stored never comes back, whatever is called. */
  lemma {:induction false} RemovedStaysRemoved(s: Store, id: string, calls: seq<Call>)
    requires StoreInv(s) && Issued(s, id) && id !in s.entries
    ensures StoreInv(PerformAll(s, calls)) && Issued(PerformAll(s, calls), id)
    ensures id !in PerformAll(s, calls).entries
  {
    if calls != [] {
      var before, call := PerformAll(s, calls[..|calls| - 1]), calls[|calls| - 1];
      RemovedStaysRemoved(s, id, calls[..|calls| - 1]);
      PerformKeepsInv(before, call);
      RemovedStaysRemovedOnce(before, id, call);
    }
  }

  /** Every record of s' was in s; only its state may have changed, to Approved only for the approved id. */
  ghost predicate Carried(s: Store, s': Store, approved: Option<string>) {
    && s'.nextId == s.nextId
    && forall id :: id in s'.entries ==>
      && id in s.entries
      && s'.entries[id] == s.entries[id].(state := s'.entries[id].state)
      && (s'.entries[id].state == Approved ==> s.entries[id].state == Approved || approved == Some(id))
  }

  lemma SweepCarries(s: Store, now: nat)
    ensures Carried(s, SweepIn(s, now), None)
  {
  }

  lemma ApproveCarries(s: Store, id: string, now: nat)
    ensures Carried(s, ApproveIn(s, id, now), Some(id))
  {
  }

  lemma RejectCarries(s: Store, id: string, now: nat)
    ensures Carried(s, RejectIn(s, id, now), None)
    ensures id !in RejectIn(s, id, now).entries
  {
  }

  lemma ConsumeCarries(s: Store, id: string, appId: string, capability: string, command: string, now: nat)
    ensures Carried(s, ConsumeIn(s, id, appId, capability, command, now).0, None)
    ensures ConsumeIn(s, id, appId, capability, command, now).1 == None ==>
              id !in ConsumeIn(s, id, appId, capability, command, now).0.entries
  {
    var expired := s.(entries := ExpireAll(s.entries, now));
    assert Carried(s, expired, None);
    ConsumeShape(s, id, appId, capability, command, now);
  }

  lemma ConsumeKeeps(s: Store, id: string, appId: string, capability: string, command: string, now: nat)
    requires StoreInv(s)
    ensures var (s', failure) := ConsumeIn(s, id, appId, capability, command, now);
            StoreInv(s') && Carried(s, s', None) && (failure == None ==> id !in s'.entries)
  {
    PerformKeepsInv(s, Call(Consume(id, appId, capability, command), now));
    ConsumeCarries(s, id, appId, capability, command, now);
  }

  lemma ConsumedWasApproved(s: Store, id: string, appId: string, capability: string, command: string, now: nat)
    requires ConsumeIn(s, id, appId, capability, command, now).1 == None
    ensures id in s.entries
    ensures var r := s.entries[id];
            r.state == Approved && r.appId == appId && r.capability == capability && r.command == command
  {
  }

  /** In every reachable store a consume fails for any reason but rejection; it succeeds exactly for
      an approved record of that app, capability and command, and then takes the record away. */
  lemma ConsumeOutcomes(calls: seq<Call>, id: string, appId: string, capability: string, command: string, now: nat)
    ensures var s := PerformAll(EMPTY, calls);
            var (s', failure) := ConsumeIn(s, id, appId, capability, command, now);
            && failure != Some(WasRejected)
            && (failure == None <==>
                  && id in s.entries
                  && s.entries[id].state == Approved
                  && s.entries[id].appId == appId
                  && s.entries[id].capability == capability
                  && s.entries[id].command == command)
            && (failure == None ==> id !in s'.entries)
  {
    RunsKeepInv(calls);
  }

  /** Why a consume fails, told by what is stored: in this order, no record, another app, capability or command,
      a request still waiting, or one that ran out of time. */
  lemma ConsumeFailures(s: Store, id: string, appId: string, capability: string, command: string, now: nat)
    requires StoreInv(s)
    ensures var failure := ConsumeIn(s, id, appId, capability, command, now).1;
            if id !in s.entries then failure == Some(NotFound)
            else
              var r := s.entries[id];
              if r.appId != appId || r.capability != capability || r.command != command then failure == Some(Mismatch)
              else if r.state == Approved then failure == None
              else if r.state == Pending && now < r.createdAt + 60_000_000_000 then failure == Some(StillPending)
              else failure == Some(WasExpired)
  {
  }

  /** And what it leaves: the named record is gone unless it is another's or still waiting; the others stay, overdue ones marked. */
  lemma ConsumeLeaves(s: Store, id: string, appId: string, capability: string, command: string, now: nat)
    ensures var (s', failure) := ConsumeIn(s, id, appId, capability, command, now);
            && s'.nextId == s.nextId
            && (forall k :: k in s'.entries <==> k in s.entries && (k != id || failure == Some(Mismatch) || failure == Some(StillPending)))
            && forall k :: k in s'.entries ==>
                 var r, overdue := s.entries[k], s.entries[k].state == Pending && now >= s.entries[k].createdAt + 60_000_000_000;
                 s'.entries[k] == if overdue then r.(state := Expired) else r
  {
    ConsumeShape(s, id, appId, capability, command, now);
    var m := ExpireAll(s.entries, now);
    assert ConsumeIn(s, id, appId, capability, command, now).0.entries
        == if id !in m || ConsumeIn(s, id, appId, capability, command, now).1 in {Some(Mismatch), Some(StillPending)} then m else Without(m, id);
  }

  /** A listing shows exactly the pending records younger than the limit, in key order, under their
      own ids, and leaves only those and the approved ones. */
  lemma ListingIsYoungPending(calls: seq<Call>, ids: seq<string>, now: nat)
    requires IsListing(ids, ExpireAll(PerformAll(EMPTY, calls).entries, now))
    ensures var m := PerformAll(EMPTY, calls).entries;
            && (forall id :: id in ids <==> id in m && m[id].state == Pending && now < m[id].createdAt + APPROVAL_TTL)
            && (forall k :: 0 <= k < |ids| ==> Summary(m[ids[k]]).approvalId == ids[k])
            && (forall id :: id in SweepIn(PerformAll(EMPTY, calls), now).entries <==>
                  id in m && (m[id].state == Approved || (m[id].state == Pending && now < m[id].createdAt + APPROVAL_TTL)))
  {
    RunsKeepInv(calls);
    var m := PerformAll(EMPTY, calls).entries;
    assert forall k :: 0 <= k < |ids| ==> ids[k] in ids;
  }

  /** Approving works exactly on what is still stored: the time limit is not looked at again. */
  lemma ApproveDecides(s: Store, id: string, now: nat)
    ensures (id in ApproveIn(s, id, now).entries && ApproveIn(s, id, now).entries[id].state == Approved) <==> id in s.entries
  {
  }

  /** A stored record, once approved, is consumed by its own app and command at any later time. */
  lemma ApproveThenConsume(s: Store, id: string, approvedAt: nat, now: nat)
    requires id in s.entries
    ensures var r := s.entries[id];
            ConsumeIn(ApproveIn(s, id, approvedAt), id, r.appId, r.capability, r.command, now).1 == None
  {
    assert ApproveIn(s, id, approvedAt).entries[id].state == Approved;
  }

  /** The design has every approval of a timed-out record fail; in the code it fails exactly when some
      earlier call has already taken the record away (ApprovalWorksUntilCleared). The instance: create, wait a minute, approve, consume. */
  lemma LateApprovalSucceeds()
    ensures var (s, id) := CreateIn(EMPTY, "notes", "shell", "ls", ["ls"], 0);
            && TimedOut(s.entries[id], APPROVAL_TTL)
            && ConsumeIn(ApproveIn(s, id, APPROVAL_TTL), id, "notes", "shell", "ls", APPROVAL_TTL).1 == None
            && ConsumeIn(ApproveIn(SweepIn(s, APPROVAL_TTL), id, APPROVAL_TTL), id, "notes", "shell", "ls", APPROVAL_TTL).1 == Some(NotFound)
  {
    var id := IdOf(1);
    assert id in CreateIn(EMPTY, "notes", "shell", "ls", ["ls"], 0).0.entries;
  }

  lemma ForallSnoc(calls: seq<Call>, last: Call, ok: Call -> bool)
    ensures (forall k :: 0 <= k < |calls + [last]| ==> ok((calls + [last])[k])) <==> (forall k :: 0 <= k < |calls| ==> ok(calls[k])) && ok(last)
  {
    var all := calls + [last];
    assert forall k :: 0 <= k < |calls| ==> all[k] == calls[k];
    assert all[|calls|] == last;
  }

  /** The call uses the record under its own app, capability and command. */
  predicate Claims(call: Call, id: string, r: ApprovalRecord) {
    call.operation == Consume(id, r.appId, r.capability, r.command)
  }

  lemma ApprovedOutlivesOthers(s: Store, id: string, call: Call)
    requires StoreInv(s)
    requires id in s.entries && s.entries[id].state == Approved
    ensures var s' := Perform(s, call);
            && (id in s'.entries <==> call.operation != Reject(id) && !Claims(call, id, s.entries[id]))
            && (id in s'.entries ==> s'.entries[id] == s.entries[id])
  {
    if call.operation.Create? {
      var o := call.operation;
      CreateIsFresh(s, o.appId, o.capability, o.command, o.commands, call.now);
    }
  }

  /** What becomes of the approved record r stored under id when the calls are made. */
  ghost predicate KeptUnlessClaimed(s': Store, id: string, r: ApprovalRecord, calls: seq<Call>) {
    && (id in s'.entries <==> forall k :: 0 <= k < |calls| ==> calls[k].operation != Reject(id) && !Claims(calls[k], id, r))
    && (id in s'.entries ==> s'.entries[id] == r)
  }

  lemma KeptStep(s: Store, id: string, r: ApprovalRecord, calls: seq<Call>, last: Call)
    requires StoreInv(s) && Issued(s, id) && r.state == Approved
    requires KeptUnlessClaimed(s, id, r, calls)
    ensures KeptUnlessClaimed(Perform(s, last), id, r, calls + [last])
  {
    if id in s.entries {
      ApprovedOutlivesOthers(s, id, last);
    } else {
      RemovedStaysRemovedOnce(s, id, last);
    }
    ForallSnoc(calls, last, (c: Call) => c.operation != Reject(id) && !Claims(c, id, r));
  }

  /** An approved record is never lost to time: whatever is called and whenever, it stays as it is
      until it is rejected or used by its own app and command. */
  lemma {:induction false} ApprovedNeverAges(s: Store, id: string, calls: seq<Call>)
    requires StoreInv(s)
    requires id in s.entries && s.entries[id].state == Approved
    ensures StoreInv(PerformAll(s, calls)) && Issued(PerformAll(s, calls), id)
    ensures KeptUnlessClaimed(PerformAll(s, calls), id, s.entries[id], calls)
  {
    if calls != [] {
      var front, last := calls[..|calls| - 1], calls[|calls| - 1];
      var before := PerformAll(s, front);
      ApprovedNeverAges(s, id, front);
      PerformKeepsInv(before, last);
      IssuedStays(before, id, last);
      KeptStep(before, id, s.entries[id], front, last);
      assert calls == front + [last];
    }
  }

  // ------------------------------------------- how long a request stays open

  predicate Overdue(r: ApprovalRecord, now: nat) {
    now >= r.createdAt + APPROVAL_TTL
  }

  /** The call takes a record away that nobody approves: it rejects it, or at or after the time limit
      sweeps the store or tries to use the record. */
  predicate Clears(call: Call, id: string, r: ApprovalRecord) {
    || call.operation == Reject(id)
    || (Overdue(r, call.now) &&
        (call.operation.ListPending? || call.operation.Reap? || call.operation.Approve? || call.operation.Reject? ||
         Claims(call, id, r)))
  }

  ghost predicate InTimeOrder(calls: seq<Call>) {
    forall i, j :: 0 <= i < j < |calls| ==> calls[i].now <= calls[j].now
  }

  /** The stored record is r as it was asked for, save that it may be marked expired by the instant given. */
  ghost predicate StillAsked(s: Store, id: string, r: ApprovalRecord, now: nat) {
    && id in s.entries
    && (s.entries[id] == r || (s.entries[id] == r.(state := Expired) && Overdue(r, now)))
  }

  lemma UndecidedStep(s: Store, id: string, r: ApprovalRecord, call: Call)
    requires StoreInv(s) && r.state == Pending && StillAsked(s, id, r, call.now)
    requires call.operation != Approve(id)
    ensures var s' := Perform(s, call);
            if Clears(call, id, r) then id !in s'.entries else StillAsked(s', id, r, call.now)
  {
    if call.operation.Create? {
      var o := call.operation;
      CreateIsFresh(s, o.appId, o.capability, o.command, o.commands, call.now);
    }
  }

  /** What becomes of the pending record r stored under id when the calls, none of them an approval, are made. */
  ghost predicate KeptUnlessCleared(s': Store, id: string, r: ApprovalRecord, calls: seq<Call>) {
    if forall k :: 0 <= k < |calls| ==> !Clears(calls[k], id, r)
    then StillAsked(s', id, r, if calls == [] then 0 else calls[|calls| - 1].now)
    else id !in s'.entries
  }

  lemma UndecidedFateStep(s: Store, id: string, r: ApprovalRecord, calls: seq<Call>, last: Call)
    requires StoreInv(s) && Issued(s, id) && r.state == Pending
    requires InTimeOrder(calls + [last]) && last.operation != Approve(id)
    requires KeptUnlessCleared(s, id, r, calls)
    ensures KeptUnlessCleared(Perform(s, last), id, r, calls + [last])
  {
    ForallSnoc(calls, last, (c: Call) => !Clears(c, id, r));
    if id in s.entries {
      assert calls != [] ==> (calls + [last])[|calls| - 1].now <= (calls + [last])[|calls|].now;
      UndecidedStep(s, id, r, last);
    } else {
      RemovedStaysRemovedOnce(s, id, last);
    }
  }

  lemma {:induction false} UndecidedFate(s: Store, id: string, calls: seq<Call>)
    requires StoreInv(s) && id in s.entries && s.entries[id].state == Pending
    requires InTimeOrder(calls)
    requires forall k :: 0 <= k < |calls| ==> calls[k].operation != Approve(id)
    ensures StoreInv(PerformAll(s, calls)) && Issued(PerformAll(s, calls), id)
    ensures KeptUnlessCleared(PerformAll(s, calls), id, s.entries[id], calls)
  {
    if calls != [] {
      var front, last := calls[..|calls| - 1], calls[|calls| - 1];
      var before := PerformAll(s, front);
      UndecidedFate(s, id, front);
      PerformKeepsInv(before, last);
      IssuedStays(before, id, last);
      assert calls == front + [last];
      UndecidedFateStep(before, id, s.entries[id], front, last);
    }
  }

  /** After any calls in time order that do not approve it, a request can still be approved, at any instant,
      exactly when none of them rejected it and none at or after its limit swept the store or tried to use it. */
  lemma ApprovalWorksUntilCleared(s: Store, id: string, calls: seq<Call>, now: nat)
    requires StoreInv(s) && id in s.entries && s.entries[id].state == Pending
    requires InTimeOrder(calls)
    requires forall k :: 0 <= k < |calls| ==> calls[k].operation != Approve(id)
    ensures var approved := ApproveIn(PerformAll(s, calls), id, now).entries;
            (id in approved && approved[id] == s.entries[id].(state := Approved))
            <==> forall k :: 0 <= k < |calls| ==> !Clears(calls[k], id, s.entries[id])
  {
    UndecidedFate(s, id, calls);
  }
}
