/** Deployments that are not forced, whatever is forced beside them: the record follows its one
    task, its status only moves forward, and the fee goes back exactly once, exactly when the
    record says Refunded. */
module FactorySimulation {
  import opened Common
  import opened Ledger
  import opened Deployments
  import opened Factory
  import opened FactoryMachine
  import opened FactorySegments
  import opened FactoryInvariant
  import opened FactoryConservation
  import opened FactoryTrace
  import opened FactoryView

  /** The record a suspended execution must find, by its program counter. */
  ghost predicate StatusMatches(t: Task, r: DeploymentRecord)
    requires IsExecution(t)
  {
    match t
    case CreateCall(_) => r.status.PaymentReceived? && r.canisterId.None?
    case InstallCall(_, cid) => r.status.CanisterCreated? && r.canisterId == Some(cid)
    case InitCall(_, cid) => r.status.CodeInstalled? && r.canisterId == Some(cid)
  }

  /** Task `t` was spawned by the request and finds its record stored as it expects it. */
  ghost predicate FindsRecord(t: Task, live: Option<DeploymentRecord>) {
    IsExecution(t) && t.x.spawned && live.Some? && StatusMatches(t, live.value)
  }

  /** One execution, suspended or over; it was handled exactly if the record is refunded. */
  ghost predicate Sim(v: View) {
    && |v.tasks| + v.handled <= v.started
    && (forall t :: t in v.tasks ==> FindsRecord(v.tasks[t], v.live))
    && (v.live.None? || v.archived.None?)
    && (if v.Record().None? then v.started == 0
        else v.started == 1 && v.handled == (if v.Record().value.status.Refunded? then 1 else 0) && SaysSo(v.Record().value))
  }

  /** A record carries an error message exactly if it is refunded, and which. */
  ghost predicate SaysSo(r: DeploymentRecord) {
    r.errorMessage == if r.status.Refunded? then Some(FeeRefunded) else None
  }

  /** PaymentReceived, CanisterCreated, CodeInstalled, Deployed in this order, or Refunded from
      any of the first three; a canister once set stays, a completed record stays as it is. */
  ghost predicate StatusMove(a: DeploymentRecord, b: DeploymentRecord) {
    && (|| b.status == a.status
        || (a.status.PaymentReceived? && b.status.CanisterCreated?)
        || (a.status.CanisterCreated? && b.status.CodeInstalled?)
        || (a.status.CodeInstalled? && b.status.Deployed?)
        || (!Completed(a) && b.status.Refunded?))
    && (a.canisterId.Some? ==> b.canisterId == a.canisterId)
    && (Completed(a) ==> b == a)
  }

  /** A record moves forward or, once completed, to the archive, where it stays. */
  ghost predicate RecordMoves(v: View, v': View) {
    && (v.live.Some? ==> if v'.live.Some? then StatusMove(v.live.value, v'.live.value)
                         else Completed(v.live.value) && v'.archived == v.live)
    && (v.archived.Some? ==> v'.archived == v.archived)
  }

  /** An unfinished record that is new, or had a task, has one. */
  ghost predicate TaskStays(v: View, v': View) {
    v'.live.Some? && !Completed(v'.live.value) && (v.live.Some? ==> v.tasks != map[]) ==> v'.tasks != map[]
  }

  // ---------- Moves ----------

  lemma FewerTasks(tasks: map<nat, Task>, t: nat)
    requires t in tasks
    ensures |tasks - {t}| == |tasks| - 1
  {
    assert (tasks - {t}).Keys == tasks.Keys - {t};
    assert |(tasks - {t}).Keys| == |tasks.Keys| - 1;
    assert |(tasks - {t}).Keys| == |tasks - {t}| && |tasks.Keys| == |tasks|;
  }

  lemma MoreTasks(tasks: map<nat, Task>, n: nat, task: Task)
    requires n !in tasks
    ensures |tasks[n := task]| == |tasks| + 1 && tasks[n := task] != map[]
  {
    assert tasks[n := task].Keys == tasks.Keys + {n};
    assert |tasks[n := task].Keys| == |tasks.Keys| + 1;
    assert |tasks[n := task].Keys| == |tasks[n := task]| && |tasks.Keys| == |tasks|;
    assert n in tasks[n := task];
  }

  lemma OnlyTask(v: View, t: nat)
    requires Sim(v) && t in v.tasks
    ensures v.tasks - {t} == map[] && |v.tasks| == 1 && v.handled == 0
    ensures v.live.Some? && !Completed(v.live.value) && v.archived.None? && v.started == 1
  {
    assert FindsRecord(v.tasks[t], v.live);
    FewerTasks(v.tasks, t);
    assert |v.tasks - {t}| == 0;
  }

  ghost predicate Follows(v: View, v': View) { Sim(v') && RecordMoves(v, v') && TaskStays(v, v') }

  lemma SimAfterCreate(v: View, n: nat, r: DeploymentRecord, caller: Principal, id: string)
    requires Sim(v) && Legal(v, Create(n, r, caller))
    ensures Follows(v, AfterMove(v, Create(n, r, caller), id))
  {
    MoreTasks(map[], n, CreateCall(Execution(id, r, true, caller)));
  }

  lemma SimAfterAdvance(v: View, mv: Move, id: string)
    requires Sim(v) && mv.Advance? && Legal(v, mv)
    ensures Follows(v, AfterMove(v, mv, id))
  {
    assert FindsRecord(v.tasks[mv.t], v.live);
    OnlyTask(v, mv.t);
    MoreTasks(map[], mv.n, mv.task);
  }

  lemma SimAfterEnd(v: View, mv: Move, id: string)
    requires Sim(v) && (mv.Deploy? || mv.GiveBack?) && Legal(v, mv)
    ensures Follows(v, AfterMove(v, mv, id))
  {
    assert FindsRecord(v.tasks[mv.t], v.live);
    OnlyTask(v, mv.t);
  }

  lemma SimAfterArchive(v: View, id: string)
    requires Sim(v) && Legal(v, Archive)
    ensures Follows(v, AfterMove(v, Archive, id))
  {
    if t :| t in v.tasks { OnlyTask(v, t); }
  }

  lemma NoDrop(v: View, t: nat)
    requires Sim(v)
    ensures !Legal(v, Drop(t))
  {
    if t in v.tasks { OnlyTask(v, t); }
  }

  /** Every move that is not forced keeps the simulation and moves the status forward only; unless
      tasks are lost, no task is. */
  lemma SimAfterMove(v: View, mv: Move, id: string)
    requires Sim(v) && Legal(v, mv) && !ByForce(mv)
    ensures var v' := AfterMove(v, mv, id);
            Sim(v') && RecordMoves(v, v') && (!mv.LoseTasks? ==> TaskStays(v, v'))
  {
    if mv.Create? || mv.Advance? || mv.Deploy? || mv.GiveBack? || mv.Archive? || mv.Drop? {
      hide Sim, Legal, AfterMove, RecordMoves, TaskStays;
      match mv
      case Create(n, r, caller) => SimAfterCreate(v, n, r, caller, id);
      case Advance(_, _, _, _) => SimAfterAdvance(v, mv, id);
      case Deploy(_, _) => SimAfterEnd(v, mv, id);
      case GiveBack(_, _) => SimAfterEnd(v, mv, id);
      case Archive => SimAfterArchive(v, id);
      case Drop(t) => NoDrop(v, t);
    }
  }

  /** Every event but a forced execution of it keeps a deployment simulated. */
  lemma SimAfterStep(m: Machine, e: Event, id: string)
    requires Inv(m) && Step(m, e).h.issued <= TWO_64 && Sim(ViewOf(m, id))
    requires e.ForceExecute? ==> e.id != id
    ensures var v, v' := ViewOf(m, id), ViewOf(Step(m, e), id);
            Sim(v') && RecordMoves(v, v') && (!e.UpgradeCanister? ==> TaskStays(v, v'))
  {
    hide Inv, Step, Sim, RecordMoves, TaskStays, ViewOf, Legal, AfterMove;
    var mv := MoveOfStep(m, e, id);
    SimAfterMove(ViewOf(m, id), mv, id);
  }

  // ---------- Every run ----------

  lemma SimAtFirst(r: Run, id: string)
    requires IsRun(r)
    ensures Sim(ViewOf(r.states[0], id))
  {
    assert ExecutionsOf(map[], id) == map[];
  }

  lemma {:induction false} SimOnEveryRun(r: Run, k: nat, id: string)
    requires YieldPoint(r, k) && NotForced(r, 0, k, id)
    ensures Sim(ViewOf(r.states[k], id))
  {
    if k == 0 {
      SimAtFirst(r, id);
    } else {
      hide Sim, Step, Inv, ViewOf;
      YieldPointBefore(r, k);
      SimOnEveryRun(r, k - 1, id);
      InvOnEveryRun(r, k - 1);
      SimAfterStep(r.states[k - 1], r.events[k - 1], id);
    }
  }

  lemma RecordInAll(m: Machine, id: string)
    ensures id in All(m) <==> ViewOf(m, id).Record().Some?
    ensures id in All(m) ==> All(m)[id] == ViewOf(m, id).Record().value
  {
  }

  /** The fee of a deployment that was not forced, in full and to its owner, is credited back at
      most once, exactly once when its status, live or archived, is Refunded. */
  lemma ExactlyOnceRefund(r: Run, k: nat, id: string)
    requires YieldPoint(r, k) && NotForced(r, 0, k, id)
    ensures var m := r.states[k];
            && RefundCount(m.s.books.log, id) <= 1
            && (forall i :: 0 <= i < |m.s.books.log| && Refunds(m.s.books.log[i], id) == 1 ==>
                  id in All(m) && m.s.books.log[i].amount == All(m)[id].feeAmount && m.s.books.log[i].user == All(m)[id].owner)
            && (id in All(m) ==> (RefundCount(m.s.books.log, id) == 1 <==> All(m)[id].status.Refunded?))
            && (id !in All(m) ==> RefundCount(m.s.books.log, id) == 0)
  {
    hide Step, All, InFlight, IsRun;
    var m := r.states[k];
    SimOnEveryRun(r, k, id);
    RecordInAll(m, id);
    RefundsAreHandledExecutions(r, k, id);
    var log := m.s.books.log;
    forall i | 0 <= i < |log| ensures RefundPaysFee(log[i], All(m)) {
      RefundsPayFees(r, k, i);
    }
  }

  /** The message of a record that was not forced tells that its fee went back, exactly if it did. */
  lemma MessageTellsRefund(r: Run, k: nat, id: string)
    requires YieldPoint(r, k) && NotForced(r, 0, k, id) && id in r.states[k].s.records
    ensures var m := r.states[k];
            m.s.records[id].errorMessage == if RefundCount(m.s.books.log, id) == 1 then Some(FeeRefunded) else None
  {
    hide Step, InFlight, IsRun, NotForced;
    var m := r.states[k];
    SimOnEveryRun(r, k, id);
    RecordInAll(m, id);
    RefundsAreHandledExecutions(r, k, id);
  }

  /** Whatever changes a stored record, forced executions included, stamps it with the time of the step
      and leaves who paid what for which request. */
  lemma ChangesAreStamped(m: Machine, e: Event, id: string)
    requires Inv(m) && Step(m, e).h.issued <= TWO_64 && id in m.s.records && id in Step(m, e).s.records
    ensures var a, b := m.s.records[id], Step(m, e).s.records[id];
            && (a == b || b.lastUpdated == m.now)
            && b.deploymentId == a.deploymentId && b.owner == a.owner && b.feeAmount == a.feeAmount
            && b.strategyType == a.strategyType && b.requestTime == a.requestTime
  {
    hide Inv, Step, ViewOf, Legal, AfterMove, Timely;
    var mv := MoveOfStep(m, e, id);
    LiveView(m, id);
    LiveView(Step(m, e), id);
    StampAfterMove(ViewOf(m, id), mv, id, m.now);
  }

  lemma StampAfterMove(v: View, mv: Move, id: string, now: u64)
    requires Legal(v, mv) && Timely(mv, now) && v.live.Some? && AfterMove(v, mv, id).live.Some?
    ensures var a, b := v.live.value, AfterMove(v, mv, id).live.value;
            && (a == b || b.lastUpdated == now)
            && b.deploymentId == a.deploymentId && b.owner == a.owner && b.feeAmount == a.feeAmount
            && b.strategyType == a.strategyType && b.requestTime == a.requestTime
  {
  }

  /** Every step moves the status of a deployment that was not forced forward only. */
  lemma StatusesMoveForward(r: Run, k: nat, id: string)
    requires YieldPoint(r, k + 1) && NotForced(r, 0, k + 1, id)
    ensures RecordMoves(ViewOf(r.states[k], id), ViewOf(r.states[k + 1], id))
  {
    hide Sim, TaskStays, Step, RecordMoves, Inv, ViewOf;
    YieldPointBefore(r, k + 1);
    SimOnEveryRun(r, k, id);
    InvOnEveryRun(r, k);
    SimAfterStep(r.states[k], r.events[k], id);
  }

  /** Two suspended executions of a deployment that was not forced are the same. */
  lemma AtMostOneTask(r: Run, k: nat, t: nat, t': nat)
    requires YieldPoint(r, k) && t in r.states[k].tasks && t' in r.states[k].tasks
    requires IsExecution(r.states[k].tasks[t]) && IsExecution(r.states[k].tasks[t'])
    requires r.states[k].tasks[t].x.id == r.states[k].tasks[t'].x.id && NotForced(r, 0, k, r.states[k].tasks[t].x.id)
    ensures t == t'
  {
    hide Sim, IsRun, NotForced;
    var tasks, id := r.states[k].tasks, r.states[k].tasks[t].x.id;
    SimOnEveryRun(r, k, id);
    Listed(tasks, t);
    Listed(tasks, t');
    OnlyTask(ViewOf(r.states[k], id), t);
    assert t' in ExecutionsOf(tasks, id) - {t} || t' == t;
  }

  /** The task of a request whose deployment was not forced never ends in an error, whatever is
      answered: the error arm is not even reached. */
  lemma ErrorArmUnreached(r: Run, k: nat, t: nat, created: Option<Principal>, cid: Principal, ok: bool, decodes: bool, env: Env)
    requires YieldPoint(r, k) && t in r.states[k].tasks && IsExecution(r.states[k].tasks[t])
    requires NotForced(r, 0, k, r.states[k].tasks[t].x.id)
    ensures var s, x := r.states[k].s, r.states[k].tasks[t].x;
            && x.spawned && x.id in s.records
            && NoError(AfterCreate(s, x, created, env)) && NoError(AfterInstall(s, x, cid, ok, decodes, env))
            && NoError(AfterInit(s, x, cid, ok, decodes, env))
  {
    hide Sim, IsRun, NotForced, AfterCreate, AfterInstall, AfterInit, Inv;
    var m := r.states[k];
    SimOnEveryRun(r, k, m.tasks[t].x.id);
    InvOnEveryRun(r, k);
    FactsInside(m);
    Listed(m.tasks, t);
    TaskFindsRecord(m, t);
    ErrorArmNeverRefunds(m.s, m.tasks[t].x, created, cid, ok, decodes, 0, env);
  }

  predicate NoError(g: Segment) { !(g.progress.Done? && g.progress.result.Err?) }

  lemma TaskFindsRecord(m: Machine, t: nat)
    requires t in m.tasks && IsExecution(m.tasks[t]) && Sim(ViewOf(m, m.tasks[t].x.id))
    ensures var x := m.tasks[t].x; x.id in m.s.records && FindsRecord(m.tasks[t], Some(m.s.records[x.id]))
  {
    var v := ViewOf(m, m.tasks[t].x.id);
    Listed(m.tasks, t);
    assert FindsRecord(v.tasks[t], v.live);
  }

  // ---------- Conservation in terms of the stored status ----------

  /** Fees of the deployments of `u` that are not refunded. */
  ghost function OpenFees(ids: seq<string>, all: Records, u: Principal): nat {
    if ids == [] then 0 else
      var id := ids[|ids| - 1];
      OpenFees(ids[..|ids| - 1], all, u) +
      (if id in all && all[id].owner == u && !all[id].status.Refunded? then all[id].feeAmount else 0)
  }

  /** Each deployment of `u` was handled once if it is refunded, and else never. */
  ghost predicate HandledOnce(ids: seq<string>, all: Records, handled: map<string, nat>, u: Principal) {
    forall id :: id in ids && id in all && all[id].owner == u ==> At(handled, id) == (if all[id].status.Refunded? then 1 else 0)
  }

  lemma {:induction false} OpenFeesAreTheRest(ids: seq<string>, all: Records, handled: map<string, nat>, u: Principal)
    requires HandledOnce(ids, all, handled, u)
    ensures CreatedFees(ids, all, u) == OpenFees(ids, all, u) + RefundedFees(ids, all, handled, u)
  {
    if ids != [] {
      var front, id := ids[..|ids| - 1], ids[|ids| - 1];
      assert forall i :: i in front ==> i in ids;
      assert id in ids;
      OpenFeesAreTheRest(front, all, handled, u);
    }
  }

  /** No execution of a deployment of `u` was forced. */
  ghost predicate NoneForced(r: Run, k: nat, u: Principal)
    requires k < |r.states|
  {
    forall id :: id in All(r.states[k]) && All(r.states[k])[id].owner == u ==> NotForced(r, 0, k, id)
  }

  /** For a user none of whose deployments was forced: balance, confirmed withdrawals and the fees of
      deployments not refunded equal confirmed deposits and grants, up to the three leaks named here. */
  lemma ConservationByStatus(r: Run, k: nat, u: Principal)
    requires YieldPoint(r, k) && NoneForced(r, k, u)
    ensures var m := r.states[k];
            Balance(m, u) + At(m.h.paidOut, u) + OpenFees(m.h.created, All(m), u)
            + Clipped(m.s.books.log, u) + At(m.h.orphaned, u)
            == At(m.h.paidIn, u) + At(m.h.adjusted, u) + At(m.h.undebited, u)
  {
    hide IsRun, Inv, NotForced, ViewOf;
    var m := r.states[k];
    InvOnEveryRun(r, k);
    ConservationAt(m, u);
    forall id | id in m.h.created && id in All(m) && All(m)[id].owner == u
      ensures At(m.h.handled, id) == (if All(m)[id].status.Refunded? then 1 else 0)
    {
      SimOnEveryRun(r, k, id);
      HandledIfRefunded(m, id);
    }
    OpenFeesAreTheRest(m.h.created, All(m), m.h.handled, u);
  }

  lemma HandledIfRefunded(m: Machine, id: string)
    requires Sim(ViewOf(m, id)) && id in All(m)
    ensures At(m.h.handled, id) == (if All(m)[id].status.Refunded? then 1 else 0)
  {
    RecordInAll(m, id);
  }
}
