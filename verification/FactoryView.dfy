/** One deployment seen on its own: its record, its suspended executions and its counts. Every
    step of the factory moves every deployment in one of eleven ways. */
module FactoryView {
  import opened Common
  import opened Ledger
  import opened Deployments
  import opened Factory
  import opened FactoryMachine
  import opened FactorySegments
  import opened FactoryInvariant
  import opened FactoryConservation
  import opened FactoryTrace
  import Ids

  datatype View = View(
    live: Option<DeploymentRecord>,
    archived: Option<DeploymentRecord>,
    tasks: map<nat, Task>,
    handled: nat,
    started: nat)
  {
    /** The record, stored or archived. */
    function Record(): Option<DeploymentRecord> { if live.Some? then live else archived }
  }

  function Find(rs: Records, id: string): Option<DeploymentRecord> { if id in rs then Some(rs[id]) else None }

  function ExecutionsOf(tasks: map<nat, Task>, id: string): map<nat, Task> {
    map t | t in tasks && IsExecution(tasks[t]) && tasks[t].x.id == id :: tasks[t]
  }

  function View5(rs: Records, archived: Records, tasks: map<nat, Task>, handled: map<string, nat>, started: map<string, nat>, id: string): View {
    View(Find(rs, id), Find(archived, id), ExecutionsOf(tasks, id), At(handled, id), At(started, id))
  }

  function ViewOf(m: Machine, id: string): View {
    View5(m.s.records, m.h.archived, m.tasks, m.h.handled, m.h.started, id)
  }

  // ---------- Moves ----------

  /** `n` is the number of a new task, `t` that of the one which was answered. */
  datatype Move =
    | Stay
    | Create(n: nat, r: DeploymentRecord, caller: Principal)
    | CreateRefunded(r: DeploymentRecord)
    | Advance(t: nat, n: nat, task: Task, now: u64)
    | Deploy(t: nat, now: u64)
    | GiveBack(t: nat, now: u64)
    | Drop(t: nat)
    | Archive
    | LoseTasks
    | ForceCall(n: nat, admin: Principal)
    | ForceRefund(now: u64)

  predicate ByForce(mv: Move) { mv.ForceCall? || mv.ForceRefund? }

  function CanisterOf(task: Task): Option<Principal> {
    match task
    case InstallCall(_, cid) => Some(cid)
    case InitCall(_, cid) => Some(cid)
    case _ => None
  }

  /** The status an execution writes on its way to the call it makes next. */
  predicate NextCall(task: Task, next: Task, status: DeploymentStatus)
    requires IsExecution(task)
  {
    || (task.CreateCall? && next.InstallCall? && next.x == task.x && status.CanisterCreated?)
    || (task.InstallCall? && next.InitCall? && next.x == task.x && next.canister == task.canister && status.CodeInstalled?)
  }

  predicate Unknown(v: View) { v.live.None? && v.archived.None? && v.tasks == map[] && v.handled == 0 && v.started == 0 }

  predicate Answerable(v: View, t: nat) { t in v.tasks && IsExecution(v.tasks[t]) }

  predicate Legal(v: View, mv: Move) {
    match mv
    case Stay => true
    case Create(_, r, _) => Unknown(v) && r.status.PaymentReceived? && r.canisterId.None? && r.errorMessage.None?
    case CreateRefunded(r) => Unknown(v) && r.status.Refunded? && r.errorMessage == Some(FeeRefunded)
    case Advance(t, n, task, _) =>
      v.live.Some? && Answerable(v, t) && n !in v.tasks && (NextCall(v.tasks[t], task, CanisterCreated) || NextCall(v.tasks[t], task, CodeInstalled))
    case Deploy(t, _) => v.live.Some? && t in v.tasks && v.tasks[t].InitCall?
    case GiveBack(t, _) => v.live.Some? && Answerable(v, t)
    case Drop(t) => v.live.None? && Answerable(v, t)
    case Archive => v.live.Some? && v.archived.None? && Completed(v.live.value)
    case LoseTasks => true
    case ForceCall(n, _) => v.live.Some? && n !in v.tasks
    case ForceRefund(_) => v.live.Some?
  }

  function AfterMove(v: View, mv: Move, id: string): View
    requires Legal(v, mv)
  {
    match mv
    case Stay => v
    case Create(n, r, caller) => v.(live := Some(r), tasks := map[n := CreateCall(Execution(id, r, true, caller))], started := 1)
    case CreateRefunded(r) => v.(live := Some(r), handled := 1, started := 1)
    case Advance(t, n, task, now) =>
      var status := if task.InstallCall? then CanisterCreated else CodeInstalled;
      v.(live := Some(Advanced(v.live.value, status, task.canister, now)), tasks := (v.tasks - {t})[n := task])
    case Deploy(t, now) => v.(live := Some(Advanced(v.live.value, Deployed, v.tasks[t].canister, now)), tasks := v.tasks - {t})
    case GiveBack(t, now) =>
      v.(live := Some(RefundedRecord(v.live.value, CanisterOf(v.tasks[t]), now)), tasks := v.tasks - {t}, handled := v.handled + 1)
    case Drop(t) => v.(tasks := v.tasks - {t})
    case Archive => v.(live := None, archived := v.live)
    case LoseTasks => v.(tasks := map[])
    case ForceCall(n, admin) =>
      v.(tasks := v.tasks[n := CreateCall(Execution(id, v.live.value, false, admin))], started := v.started + 1)
    case ForceRefund(now) =>
      v.(live := Some(RefundedRecord(v.live.value, None, now)), handled := v.handled + 1, started := v.started + 1)
  }

  /** The move writes the time of its step. */
  predicate Timely(mv: Move, now: u64) {
    match mv
    case Create(_, r, _) => r.requestTime == now && r.lastUpdated == now
    case CreateRefunded(r) => r.requestTime == now && r.lastUpdated == now
    case Advance(_, _, _, at) => at == now
    case Deploy(_, at) => at == now
    case GiveBack(_, at) => at == now
    case ForceRefund(at) => at == now
    case _ => true
  }

  /** `mv` is what the step from `m` to `m'` does to deployment `id`. */
  ghost predicate Moves(m: Machine, m': Machine, id: string, mv: Move) {
    Legal(ViewOf(m, id), mv) && Timely(mv, m.now) && ViewOf(m', id) == AfterMove(ViewOf(m, id), mv, id)
  }

  // ---------- Suspended executions under change ----------

  lemma ExecutionsAfterResume(tasks: map<nat, Task>, t: nat, id: string)
    ensures ExecutionsOf(tasks - {t}, id) == ExecutionsOf(tasks, id) - {t}
  {
  }

  lemma ExecutionsAfterSuspend(tasks: map<nat, Task>, n: nat, task: Task, id: string)
    requires n !in tasks
    ensures ExecutionsOf(tasks[n := task], id) ==
            if IsExecution(task) && task.x.id == id then ExecutionsOf(tasks, id)[n := task] else ExecutionsOf(tasks, id)
  {
  }

  lemma ExecutionsAreInFlight(tasks: map<nat, Task>, id: string)
    ensures ExecutionsOf(tasks, id).Keys == InFlight(tasks, id) && |ExecutionsOf(tasks, id)| == |InFlight(tasks, id)|
  {
    assert ExecutionsOf(tasks, id).Keys == InFlight(tasks, id);
    assert |ExecutionsOf(tasks, id)| == |ExecutionsOf(tasks, id).Keys|;
  }

  lemma NotThere(tasks: map<nat, Task>, t: nat)
    requires t !in tasks
    ensures tasks - {t} == tasks
  {
  }

  // ---------- Every event is a move of every deployment ----------

  lemma NewRecordFacts(m: Machine, caller: Principal)
    requires Inv(m) && m.h.issued < TWO_64
    ensures Unknown(ViewOf(m, NewId(m, caller)))
  {
    hide BooksMatchLog, RecordsOk, ExternalOk, FeesOk, RefundSumsOk, CountsOk, Distinct, IssuedBelow;
    var id := NewId(m, caller);
    NewIdIsFresh(m, caller);
    assert id !in SetOf(m.h.created);
    assert At(m.h.handled, id) + |InFlight(m.tasks, id)| <= At(m.h.started, id) == 0;
    ExecutionsAreInFlight(m.tasks, id);
    assert ExecutionsOf(m.tasks, id) == map[];
  }

  lemma MoveOfRequest(m: Machine, caller: Principal, request: Request, cycles: nat, id: string) returns (mv: Move)
    requires Inv(m) && DoRequest(m, caller, request, cycles).h.issued <= TWO_64
    ensures Moves(m, DoRequest(m, caller, request, cycles), id, mv) && !ByForce(mv) && !mv.LoseTasks?
  {
    hide Inv, DoRequest, Post, Ids.DeploymentId, View5, Legal, AfterMove;
    RequestCases(m, caller, request, cycles);
    StayIsLegal(m, id);
    mv := Stay;
    if Accepted(m, caller, request) && request.encodes {
      mv := MoveOfCreation(m, caller, cycles < CREATION_CYCLES, id);
    }
  }

  /** The two ways an accepted request ends. */
  function Created(m: Machine, caller: Principal, short: bool): Machine
    requires GetUserAccount(m.s.books, caller).balance >= m.s.fee
  {
    var id := NewId(m, caller);
    var c := CreateRecord(PayFee(m, caller), id, caller, m.s.fee);
    if short then RefundIn(c, id, None, caller) else Suspend(c, CreateCall(Execution(id, c.s.records[id], true, caller)))
  }

  lemma MoveOfCreation(m: Machine, caller: Principal, short: bool, id: string) returns (mv: Move)
    requires Inv(m) && m.h.issued < TWO_64 && GetUserAccount(m.s.books, caller).balance >= m.s.fee
    ensures Moves(m, Created(m, caller, short), id, mv) && !ByForce(mv) && !mv.LoseTasks?
  {
    hide Inv, Created, FeesPositive, NewId, NewRecord, View5;
    FactsInside(m);
    var nid := NewId(m, caller);
    NewRecordFacts(m, caller);
    CreatedParts(m, caller, short);
    var m' := Created(m, caller, short);
    var r := NewRecord(nid, SelfHedging, caller, m.s.fee, m.now);
    NewRecordShape(nid, caller, m.s.fee, m.now);
    mv := if nid != id then Stay else if short then CreateRefunded(RefundedRecord(r, None, m.now)) else Create(m.nextTask, r, caller);
    ViewAfterCreation(m, m', nid, if short then RefundedRecord(r, None, m.now) else r,
                      if short then None else Some(CreateCall(Execution(nid, r, true, caller))), id);
  }

  lemma NewRecordShape(id: string, owner: Principal, fee: u64, now: u64)
    ensures var r := NewRecord(id, SelfHedging, owner, fee, now);
            var r' := RefundedRecord(r, None, now);
            && r.status.PaymentReceived? && r.canisterId.None? && r.errorMessage.None? && r.requestTime == r.lastUpdated == now
            && r'.status.Refunded? && r'.errorMessage == Some(FeeRefunded) && r'.requestTime == r'.lastUpdated == now
  {
  }

  /** A record that is stored or replaced, one execution begun, and its task unless it was handled. */
  lemma ViewAfterCreation(m: Machine, m': Machine, other: string, r: DeploymentRecord, task: Option<Task>, id: string)
    requires m.nextTask !in m.tasks && (task.Some? ==> task.value.CreateCall? && task.value.x.id == other)
    requires m'.s.records == m.s.records[other := r] && m'.h.archived == m.h.archived && m'.h.started == Bump(m.h.started, other, 1)
    requires m'.tasks == (if task.Some? then m.tasks[m.nextTask := task.value] else m.tasks)
    requires m'.h.handled == (if task.Some? then m.h.handled else Bump(m.h.handled, other, 1))
    ensures m.nextTask !in ViewOf(m, id).tasks
    ensures var v := ViewOf(m, id);
            ViewOf(m', id) ==
            if other != id then v
            else v.(live := Some(r), started := v.started + 1,
                    tasks := if task.Some? then v.tasks[m.nextTask := task.value] else v.tasks,
                    handled := if task.Some? then v.handled else v.handled + 1)
  {
    NotListed(m.tasks, m.nextTask, id);
    if task.Some? {
      ExecutionsAfterSuspend(m.tasks, m.nextTask, task.value, id);
    }
    hide ExecutionsOf;
  }

  lemma CreatedParts(m: Machine, caller: Principal, short: bool)
    requires GetUserAccount(m.s.books, caller).balance >= m.s.fee
    ensures var id := NewId(m, caller);
            var r := NewRecord(id, SelfHedging, caller, m.s.fee, m.now);
            var m' := Created(m, caller, short);
            && m'.s.records == m.s.records[id := if short then RefundedRecord(r, None, m.now) else r]
            && m'.tasks == (if short then m.tasks else m.tasks[m.nextTask := CreateCall(Execution(id, r, true, caller))])
            && m'.h.archived == m.h.archived && m'.h.started == Bump(m.h.started, id, 1)
            && m'.h.handled == (if short then Bump(m.h.handled, id, 1) else m.h.handled)
  {
    hide Post, Ids.DeploymentId;
    var id := NewId(m, caller);
    var r := NewRecord(id, SelfHedging, caller, m.s.fee, m.now);
    var after := RefundedRecord(r, None, m.now);
    assert m.s.records[id := r][id := after] == m.s.records[id := after];
  }

  lemma MoveOfForce(m: Machine, admin: Principal, other: string, cycles: nat, id: string) returns (mv: Move)
    requires Inv(m)
    ensures Moves(m, DoForce(m, admin, other, cycles), id, mv) && !mv.LoseTasks?
    ensures ByForce(mv) <==> other == id && id in m.s.records
  {
    hide Inv, DoForce, FeesPositive, View5;
    FactsInside(m);
    ForceParts(m, admin, other, cycles);
    mv := Stay;
    if other in m.s.records {
      var m', r := DoForce(m, admin, other, cycles), m.s.records[other];
      var short := cycles < CREATION_CYCLES;
      ViewAfterCreation(m, m', other, if short then RefundedRecord(r, None, m.now) else r,
                        if short then None else Some(CreateCall(Execution(other, r, false, admin))), id);
      if other == id {
        LiveView(m, id);
        mv := if short then ForceRefund(m.now) else ForceCall(m.nextTask, admin);
      }
    }
  }

  lemma LiveView(m: Machine, id: string)
    ensures ViewOf(m, id).live == (if id in m.s.records then Some(m.s.records[id]) else None)
  {
  }

  lemma ForceParts(m: Machine, admin: Principal, id: string, cycles: nat)
    requires FeesPositive(m)
    ensures var m' := DoForce(m, admin, id, cycles);
            if id !in m.s.records then m' == m
            else
              var short := cycles < CREATION_CYCLES;
              && m'.s.records == m.s.records[id := if short then RefundedRecord(m.s.records[id], None, m.now) else m.s.records[id]]
              && m'.tasks == (if short then m.tasks else m.tasks[m.nextTask := CreateCall(Execution(id, m.s.records[id], false, admin))])
              && m'.h.archived == m.h.archived && m'.h.started == Bump(m.h.started, id, 1)
              && m'.h.handled == (if short then Bump(m.h.handled, id, 1) else m.h.handled)
  {
    ForceCases(m, admin, id, cycles);
    hide DoForce, Post;
  }

  lemma NotListed(tasks: map<nat, Task>, t: nat, id: string)
    requires t !in tasks || !IsExecution(tasks[t]) || tasks[t].x.id != id
    ensures t !in ExecutionsOf(tasks, id) && ExecutionsOf(tasks, id) - {t} == ExecutionsOf(tasks, id)
  {
  }

  lemma Listed(tasks: map<nat, Task>, t: nat)
    requires t in tasks && IsExecution(tasks[t])
    ensures var xs := ExecutionsOf(tasks, tasks[t].x.id); t in xs && xs[t] == tasks[t]
  {
  }

  /** The suspended executions after task `t` was answered: gone, or replaced by `next`. */
  lemma ExecutionsAfterAnswer(m: Machine, t: nat, next: Task, id: string)
    requires m.nextTask !in m.tasks && t in m.tasks && IsExecution(m.tasks[t]) && IsExecution(next) && next.x == m.tasks[t].x
    ensures var xs := ExecutionsOf(m.tasks, id);
            && m.nextTask !in xs
            && (if m.tasks[t].x.id == id then
                  && t in xs && xs[t] == m.tasks[t]
                  && ExecutionsOf(m.tasks - {t}, id) == xs - {t}
                  && ExecutionsOf((m.tasks - {t})[m.nextTask := next], id) == (xs - {t})[m.nextTask := next]
                else
                  && ExecutionsOf(m.tasks - {t}, id) == xs
                  && ExecutionsOf((m.tasks - {t})[m.nextTask := next], id) == xs)
  {
    hide ExecutionsOf;
    NotListed(m.tasks, m.nextTask, id);
    ExecutionsAfterResume(m.tasks, t, id);
    ExecutionsAfterSuspend(m.tasks - {t}, m.nextTask, next, id);
    if m.tasks[t].x.id == id {
      Listed(m.tasks, t);
    } else {
      NotListed(m.tasks, t, id);
    }
  }

  /** What the answer to task `t` did to the parts of the machine that a view shows. */
  ghost predicate Answered(m: Machine, m': Machine, t: nat, mv: Move)
    requires t in m.tasks && IsExecution(m.tasks[t])
  {
    var id := m.tasks[t].x.id;
    && m'.h.archived == m.h.archived && m'.h.started == m.h.started
    && m'.h.handled == (if mv.GiveBack? then Bump(m.h.handled, id, 1) else m.h.handled)
    && m'.tasks == (if mv.Advance? then (m.tasks - {t})[m.nextTask := mv.task] else m.tasks - {t})
    && match mv
       case Drop(t') => t' == t && id !in m.s.records && m'.s.records == m.s.records
       case Advance(t', n, task, now) =>
         && t' == t && n == m.nextTask && now == m.now && id in m.s.records
         && (NextCall(m.tasks[t], task, CanisterCreated) || NextCall(m.tasks[t], task, CodeInstalled))
         && m'.s.records == m.s.records[id := Advanced(m.s.records[id], if task.InstallCall? then CanisterCreated else CodeInstalled, task.canister, now)]
       case Deploy(t', now) =>
         && t' == t && now == m.now && m.tasks[t].InitCall? && id in m.s.records
         && m'.s.records == m.s.records[id := Advanced(m.s.records[id], Deployed, m.tasks[t].canister, now)]
       case GiveBack(t', now) =>
         && t' == t && now == m.now && id in m.s.records
         && m'.s.records == m.s.records[id := RefundedRecord(m.s.records[id], CanisterOf(m.tasks[t]), now)]
       case _ => false
  }

  lemma MoveOfAnswered(m: Machine, m': Machine, t: nat, mv: Move, id: string)
    requires m.nextTask !in m.tasks && t in m.tasks && IsExecution(m.tasks[t]) && Answered(m, m', t, mv)
    ensures Moves(m, m', id, if m.tasks[t].x.id == id then mv else Stay)
  {
    var next := if mv.Advance? then mv.task else m.tasks[t];
    ExecutionsAfterAnswer(m, t, next, id);
    hide ExecutionsOf;
  }

  lemma AnsweredByRefund(m: Machine, t: nat)
    requires t in m.tasks && IsExecution(m.tasks[t]) && m.tasks[t].x.id in m.s.records
    ensures var x := m.tasks[t].x;
            Answered(m, RefundIn(Resume(m, t), x.id, CanisterOf(m.tasks[t]), x.caller), t, GiveBack(t, m.now))
  {
    hide Post;
  }

  lemma AnsweredByNothing(m: Machine, m': Machine, t: nat)
    requires t in m.tasks && IsExecution(m.tasks[t]) && m.tasks[t].x.id !in m.s.records
    requires m'.s == m.s && m'.tasks == m.tasks - {t} && m'.h == m.h.(canisters := m'.h.canisters)
    ensures Answered(m, m', t, Drop(t))
  {
  }

  lemma CreateAnsweredParts(m: Machine, t: nat, created: Option<Principal>) returns (mv: Move)
    requires Inv(m) && t in m.tasks && m.tasks[t].CreateCall?
    ensures Answered(m, DoCreateAnswered(m, t, created), t, mv)
  {
    hide Inv, DoCreateAnswered, FeesPositive, Answered, RefundIn;
    FactsInside(m);
    CreateAnsweredCases(m, t, created);
    var x := m.tasks[t].x;
    if x.id !in m.s.records {
      mv := Drop(t);
      AnsweredByNothing(m, DoCreateAnswered(m, t, created), t);
    } else if created.None? {
      mv := GiveBack(t, m.now);
      AnsweredByRefund(m, t);
    } else {
      mv := Advance(t, m.nextTask, InstallCall(x, created.value), m.now);
      AnsweredByCanister(m, t, created.value);
    }
  }

  lemma AnsweredByCanister(m: Machine, t: nat, cid: Principal)
    requires t in m.tasks && m.tasks[t].CreateCall? && m.tasks[t].x.id in m.s.records
    ensures var x := m.tasks[t].x;
            Answered(m, Suspend(SetRecord(AddCanister(Resume(m, t), cid), x.id, Advanced(m.s.records[x.id], CanisterCreated, cid, m.now)), InstallCall(x, cid)),
                     t, Advance(t, m.nextTask, InstallCall(x, cid), m.now))
  {
  }

  lemma InstallAnsweredParts(m: Machine, t: nat, installed: bool, decodes: bool) returns (mv: Move)
    requires Inv(m) && t in m.tasks && m.tasks[t].InstallCall?
    ensures Answered(m, DoInstallAnswered(m, t, installed, decodes), t, mv)
  {
    hide Inv, DoInstallAnswered, FeesPositive, Answered, RefundIn;
    FactsInside(m);
    InstallAnsweredCases(m, t, installed, decodes);
    var x := m.tasks[t].x;
    if x.id !in m.s.records {
      mv := Drop(t);
      AnsweredByNothing(m, DoInstallAnswered(m, t, installed, decodes), t);
    } else if installed && decodes {
      mv := Advance(t, m.nextTask, InitCall(x, m.tasks[t].canister), m.now);
      AnsweredByCode(m, t);
    } else {
      mv := GiveBack(t, m.now);
      AnsweredByRefund(m, t);
    }
  }

  lemma AnsweredByCode(m: Machine, t: nat)
    requires t in m.tasks && m.tasks[t].InstallCall? && m.tasks[t].x.id in m.s.records
    ensures var x, cid := m.tasks[t].x, m.tasks[t].canister;
            Answered(m, Suspend(SetRecord(Resume(m, t), x.id, Advanced(m.s.records[x.id], CodeInstalled, cid, m.now)), InitCall(x, cid)),
                     t, Advance(t, m.nextTask, InitCall(x, cid), m.now))
  {
  }

  lemma InitAnsweredParts(m: Machine, t: nat, initialized: bool, decodes: bool) returns (mv: Move)
    requires Inv(m) && t in m.tasks && m.tasks[t].InitCall?
    ensures Answered(m, DoInitAnswered(m, t, initialized, decodes), t, mv)
  {
    hide Inv, DoInitAnswered, FeesPositive, Answered, RefundIn;
    FactsInside(m);
    InitAnsweredCases(m, t, initialized, decodes);
    if m.tasks[t].x.id !in m.s.records {
      mv := Drop(t);
      AnsweredByNothing(m, DoInitAnswered(m, t, initialized, decodes), t);
    } else if initialized && decodes {
      mv := Deploy(t, m.now);
      AnsweredByStrategy(m, t);
    } else {
      mv := GiveBack(t, m.now);
      AnsweredByRefund(m, t);
    }
  }

  lemma AnsweredByStrategy(m: Machine, t: nat)
    requires t in m.tasks && m.tasks[t].InitCall? && m.tasks[t].x.id in m.s.records
    ensures var x, cid := m.tasks[t].x, m.tasks[t].canister;
            Answered(m, IndexStrategy(SetRecord(Resume(m, t), x.id, Advanced(m.s.records[x.id], Deployed, cid, m.now)), x, cid), t, Deploy(t, m.now))
  {
    hide StoreStrategyMetadata;
  }

  lemma MoveOfCleanup(m: Machine, shouldArchive: bool, order: seq<string>, id: string) returns (mv: Move)
    requires Inv(m) && Enumerates(order, m.s.records)
    ensures Moves(m, DoCleanup(m, shouldArchive, order), id, mv) && !ByForce(mv) && !mv.LoseTasks?
  {
    hide Inv, DoCleanup, Enumerates, ExecutionsOf, FeesPositive, IsExecution;
    FactsInside(m);
    ArchivedElsewhere(m, id);
    var gone := CleanupCases(m, shouldArchive, order);
    mv := if id in gone then Archive else Stay;
    var m' := DoCleanup(m, shouldArchive, order);
    assert m'.s.records == m.s.records - gone && m'.tasks == m.tasks;
    assert m'.h.handled == m.h.handled && m'.h.started == m.h.started;
    hide CompletedIn;
    assert Find(m'.s.records, id) == if id in gone then None else Find(m.s.records, id);
    assert Find(m'.h.archived, id) == if id in gone then Find(m.s.records, id) else Find(m.h.archived, id);
  }

  lemma ArchivedElsewhere(m: Machine, id: string)
    requires Inv(m)
    ensures id in m.s.records ==> id !in m.h.archived
  {
    hide BooksMatchLog, RecordsOk, TasksOk, ExternalOk, FeesOk, RefundSumsOk, CountsOk, ExecutionsOk, IssuedBelow, Distinct;
    assert id in m.s.records ==> id !in m.h.archived.Keys;
  }

  lemma MoveOfUpgrade(m: Machine, id: string)
    ensures Moves(m, DoUpgrade(m), id, LoseTasks)
  {
    UpgradeLogs(m);
    assert ExecutionsOf(map[], id) == map[];
  }

  /** What steps of the ledger leave alone. */
  ghost predicate SameDeployments(m: Machine, m': Machine) {
    && m'.s.records == m.s.records
    && m'.h.archived == m.h.archived && m'.h.handled == m.h.handled && m'.h.started == m.h.started
    && (forall t :: t in m'.tasks && IsExecution(m'.tasks[t]) ==> t in m.tasks && m'.tasks[t] == m.tasks[t])
    && (forall t :: t in m.tasks && IsExecution(m.tasks[t]) ==> t in m'.tasks && m'.tasks[t] == m.tasks[t])
  }

  lemma LedgerAnswersFrame(m: Machine, task: nat, paid: bool)
    requires task in m.tasks
    ensures m.tasks[task].DepositCall? ==> SameDeployments(m, DoEndDeposit(m, task, paid))
    ensures m.tasks[task].WithdrawCall? ==> SameDeployments(m, DoEndWithdrawal(m, task, paid))
  {
    hide FinishDeposit, FinishWithdrawal;
  }

  predicate OfLedger(e: Event) {
    e.Tick? || e.SetFee? || e.Adjust? || e.BeginDeposit? || e.EndDeposit? || e.BeginWithdrawal? || e.EndWithdrawal?
  }

  lemma LedgerStepFrame(m: Machine, e: Event)
    requires m.nextTask !in m.tasks && OfLedger(e)
    ensures SameDeployments(m, Step(m, e))
  {
    hide AdjustBalance, CheckDeposit, CheckWithdrawal, DoEndDeposit, DoEndWithdrawal,
         DoRequest, DoForce, DoCreateAnswered, DoInstallAnswered, DoInitAnswered, DoCleanup, DoUpgrade, Enumerates;
    match e
    case EndDeposit(task, paid) => if task in m.tasks { LedgerAnswersFrame(m, task, paid); }
    case EndWithdrawal(task, paid) => if task in m.tasks { LedgerAnswersFrame(m, task, paid); }
    case _ =>
  }

  lemma SameView(m: Machine, m': Machine, id: string)
    requires SameDeployments(m, m')
    ensures ViewOf(m', id) == ViewOf(m, id) && Moves(m, m', id, Stay)
  {
    assert ExecutionsOf(m'.tasks, id) == ExecutionsOf(m.tasks, id);
  }

  /** An answer moves the deployment it concerns, or nobody waits for it. */
  lemma AnswerParts(m: Machine, e: Event) returns (mv: Move)
    requires Inv(m) && (e.CreateAnswered? || e.InstallAnswered? || e.InitAnswered?)
    ensures mv.Stay? ==> Step(m, e) == m
    ensures !mv.Stay? ==> e.task in m.tasks && IsExecution(m.tasks[e.task]) && Answered(m, Step(m, e), e.task, mv)
  {
    hide Inv, Answered, DoCreateAnswered, DoInstallAnswered, DoInitAnswered;
    mv := Stay;
    match e
    case CreateAnswered(t, created) =>
      if t in m.tasks && m.tasks[t].CreateCall? { mv := CreateAnsweredParts(m, t, created); NotStay(m, Step(m, e), t, mv); }
    case InstallAnswered(t, installed, decodes) =>
      if t in m.tasks && m.tasks[t].InstallCall? { mv := InstallAnsweredParts(m, t, installed, decodes); NotStay(m, Step(m, e), t, mv); }
    case InitAnswered(t, initialized, decodes) =>
      if t in m.tasks && m.tasks[t].InitCall? { mv := InitAnsweredParts(m, t, initialized, decodes); NotStay(m, Step(m, e), t, mv); }
  }

  lemma NotStay(m: Machine, m': Machine, t: nat, mv: Move)
    requires t in m.tasks && IsExecution(m.tasks[t]) && Answered(m, m', t, mv)
    ensures !mv.Stay? && !mv.LoseTasks? && !ByForce(mv)
  {
  }

  lemma MoveOfAnswer(m: Machine, e: Event, id: string) returns (mv: Move)
    requires Inv(m) && (e.CreateAnswered? || e.InstallAnswered? || e.InitAnswered?)
    ensures Moves(m, Step(m, e), id, mv) && !ByForce(mv) && !mv.LoseTasks?
  {
    FactsInside(m);
    StayIsLegal(m, id);
    hide Inv, Step, Answered, ViewOf, Legal;
    mv := AnswerParts(m, e);
    if !mv.Stay? {
      NotStay(m, Step(m, e), e.task, mv);
      MoveOfAnswered(m, Step(m, e), e.task, mv, id);
      if m.tasks[e.task].x.id != id {
        mv := Stay;
      }
    }
  }

  lemma StayIsLegal(m: Machine, id: string)
    ensures Moves(m, m, id, Stay)
  {
  }

  lemma MoveOfCommand(m: Machine, e: Event, id: string) returns (mv: Move)
    requires Inv(m) && Step(m, e).h.issued <= TWO_64
    requires e.RequestStrategy? || e.ForceExecute? || e.Cleanup? || e.UpgradeCanister?
    ensures Moves(m, Step(m, e), id, mv)
    ensures mv.LoseTasks? <==> e.UpgradeCanister?
    ensures ByForce(mv) <==> e.ForceExecute? && e.id == id && id in m.s.records
  {
    StayIsLegal(m, id);
    hide Moves, Inv, DoRequest, DoForce, DoCleanup, DoUpgrade, Enumerates;
    mv := Stay;
    match e
    case RequestStrategy(caller, request, cycles) =>
      if caller != ANONYMOUS { mv := MoveOfRequest(m, caller, request, cycles, id); }
    case ForceExecute(admin, other, cycles) => mv := MoveOfForce(m, admin, other, cycles, id);
    case Cleanup(shouldArchive, order) =>
      if Enumerates(order, m.s.records) { mv := MoveOfCleanup(m, shouldArchive, order, id); }
    case UpgradeCanister =>
      MoveOfUpgrade(m, id);
      mv := LoseTasks;
  }

  /** Every step moves every deployment; by force only a forced execution of it, stored, does. */
  lemma MoveOfStep(m: Machine, e: Event, id: string) returns (mv: Move)
    requires Inv(m) && Step(m, e).h.issued <= TWO_64
    ensures Moves(m, Step(m, e), id, mv)
    ensures mv.LoseTasks? <==> e.UpgradeCanister?
    ensures ByForce(mv) <==> e.ForceExecute? && e.id == id && id in m.s.records
  {
    hide Step, Inv, Moves;
    if OfLedger(e) {
      mv := Stay;
      StayOfLedger(m, e, id);
    } else if e.CreateAnswered? || e.InstallAnswered? || e.InitAnswered? {
      mv := MoveOfAnswer(m, e, id);
    } else {
      mv := MoveOfCommand(m, e, id);
    }
  }

  lemma StayOfLedger(m: Machine, e: Event, id: string)
    requires Inv(m) && OfLedger(e)
    ensures Moves(m, Step(m, e), id, Stay)
  {
    hide Inv, Step, SameDeployments;
    FactsInside(m);
    LedgerStepFrame(m, e);
    SameView(m, Step(m, e), id);
  }
}
