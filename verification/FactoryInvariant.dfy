/** The invariant of the factory over every run, with forced executions, archiving and
    upgrades interleaved in any way. */
module FactoryInvariant {
  import opened Common
  import opened Ledger
  import opened Deployments
  import opened Factory
  import opened FactoryMachine
  import opened FactorySegments
  import Ids

  // ---------- The parts of the invariant ----------

  /** Every deployment ever stored, live or archived. */
  function All(m: Machine): Records { m.h.archived + m.s.records }

  predicate IsExecution(t: Task) { t.CreateCall? || t.InstallCall? || t.InitCall? }

  ghost predicate IssuedBelow(id: string, n: nat) {
    exists t: u64, c: Principal, k: u64 :: k < n && id == Ids.DeploymentId(t, c, k)
  }

  ghost predicate IdsOk(created: seq<string>, rs: Records, archived: Records, issued: nat, counter: u64) {
    && Distinct(created)
    && SetOf(created) == rs.Keys + archived.Keys
    && rs.Keys !! archived.Keys
    && (forall id :: id in created ==> IssuedBelow(id, issued))
    && counter == issued % TWO_64
  }

  predicate Restful(s: DeploymentStatus) {
    s.PaymentReceived? || s.CanisterCreated? || s.CodeInstalled? || s.Deployed? || s.Refunded?
  }

  /** Between segments a record is in one of five statuses; in particular none is marked failed. */
  ghost predicate RecordsOk(rs: Records, archived: Records) {
    && (forall id :: id in rs ==>
          && rs[id].deploymentId == id && rs[id].feeAmount >= 1
          && rs[id].strategyType.SelfHedging? && Restful(rs[id].status))
    && (forall id :: id in archived ==> archived[id].feeAmount >= 1 && Completed(archived[id]))
  }

  /** The captured variables of an execution agree with its record, live or archived. */
  ghost predicate ExecutionOk(x: Execution, all: Records) {
    x.id in all && x.record.owner == all[x.id].owner && x.record.strategyType.SelfHedging?
  }

  ghost predicate TasksOk(tasks: map<nat, Task>, next: nat, all: Records) {
    forall t :: t in tasks ==> t < next && (IsExecution(tasks[t]) ==> ExecutionOk(tasks[t].x, all))
  }

  /** Fees charged to `u` for the deployments in `ids`. */
  ghost function CreatedFees(ids: seq<string>, all: Records, u: Principal): nat {
    if ids == [] then 0 else
      var id := ids[|ids| - 1];
      CreatedFees(ids[..|ids| - 1], all, u) + (if id in all && all[id].owner == u then all[id].feeAmount else 0)
  }

  /** Fees credited back to `u`, each as often as its deployment was handled. */
  ghost function RefundedFees(ids: seq<string>, all: Records, handled: map<string, nat>, u: Principal): nat {
    if ids == [] then 0 else
      var id := ids[|ids| - 1];
      RefundedFees(ids[..|ids| - 1], all, handled, u) +
      (if id in all && all[id].owner == u then all[id].feeAmount * At(handled, id) else 0)
  }

  /** The log agrees, user by user, with what the ledger confirmed and administrators granted. */
  ghost predicate ExternalOk(log: seq<TransactionRecord>, paidIn: map<Principal, nat>, adjusted: map<Principal, nat>,
                             paidOut: map<Principal, nat>, undebited: map<Principal, nat>)
  {
    forall u ::
      && KindSum(log, u, Deposit) == At(paidIn, u)
      && KindSum(log, u, AdminAdjustment) == At(adjusted, u)
      && KindSum(log, u, Withdrawal) + At(undebited, u) == At(paidOut, u)
  }

  /** Logged fees are those of the stored deployments plus those whose record was never stored. */
  ghost predicate FeesOk(log: seq<TransactionRecord>, created: seq<string>, all: Records, orphaned: map<Principal, nat>) {
    forall u :: KindSum(log, u, DeploymentFee) == CreatedFees(created, all, u) + At(orphaned, u)
  }

  /** Logged refunds are the fees of the handled executions. */
  ghost predicate RefundSumsOk(log: seq<TransactionRecord>, created: seq<string>, all: Records, handled: map<string, nat>) {
    forall u :: KindSum(log, u, Refund) == RefundedFees(created, all, handled, u)
  }

  ghost function InFlight(tasks: map<nat, Task>, id: string): set<nat> {
    set t | t in tasks && IsExecution(tasks[t]) && tasks[t].x.id == id
  }

  /** Every refund in the log belongs to a handled execution. */
  ghost predicate CountsOk(log: seq<TransactionRecord>, handled: map<string, nat>) {
    forall id :: RefundCount(log, id) == At(handled, id)
  }

  /** An execution is handled at most once, and only if it was begun. */
  ghost predicate ExecutionsOk(tasks: map<nat, Task>, handled: map<string, nat>, started: map<string, nat>, created: seq<string>) {
    && (forall id :: At(handled, id) + |InFlight(tasks, id)| <= At(started, id))
    && (forall id :: id !in created ==> At(started, id) == 0)
  }

  ghost predicate Inv(m: Machine) {
    && BooksMatchLog(m.s.books, m.h.cacheBase)
    && IdsOk(m.h.created, m.s.records, m.h.archived, m.h.issued, m.s.idCounter)
    && RecordsOk(m.s.records, m.h.archived)
    && TasksOk(m.tasks, m.nextTask, All(m))
    && ExternalOk(m.s.books.log, m.h.paidIn, m.h.adjusted, m.h.paidOut, m.h.undebited)
    && FeesOk(m.s.books.log, m.h.created, All(m), m.h.orphaned)
    && RefundSumsOk(m.s.books.log, m.h.created, All(m), m.h.handled)
    && CountsOk(m.s.books.log, m.h.handled)
    && ExecutionsOk(m.tasks, m.h.handled, m.h.started, m.h.created)
  }

  // ---------- Fee sums under change ----------

  /** Owners and fees of deployments never change. */
  ghost predicate SameTerms(all: Records, all': Records) {
    forall id :: id in all ==> id in all' && all'[id].owner == all[id].owner && all'[id].feeAmount == all[id].feeAmount
  }

  lemma {:induction false} FeesUnchanged(ids: seq<string>, all: Records, all': Records, handled: map<string, nat>, u: Principal)
    requires SameTerms(all, all') && SetOf(ids) <= all.Keys
    ensures CreatedFees(ids, all', u) == CreatedFees(ids, all, u)
    ensures RefundedFees(ids, all', handled, u) == RefundedFees(ids, all, handled, u)
  {
    if ids != [] {
      SetOfAppend(ids);
      assert ids[|ids| - 1] in SetOf(ids);
      FeesUnchanged(ids[..|ids| - 1], all, all', handled, u);
    }
  }

  lemma {:induction false} RefundedFeesElsewhere(ids: seq<string>, all: Records, handled: map<string, nat>, id: string, u: Principal)
    requires id !in SetOf(ids)
    ensures RefundedFees(ids, all, Bump(handled, id, 1), u) == RefundedFees(ids, all, handled, u)
  {
    if ids != [] {
      SetOfAppend(ids);
      assert ids[|ids| - 1] in SetOf(ids);
      RefundedFeesElsewhere(ids[..|ids| - 1], all, handled, id, u);
    }
  }

  /** One more handled execution adds one fee for the owner of the deployment. */
  lemma {:induction false} RefundedFeesBump(ids: seq<string>, all: Records, handled: map<string, nat>, id: string, u: Principal)
    requires Distinct(ids) && id in SetOf(ids) && SetOf(ids) <= all.Keys
    ensures RefundedFees(ids, all, Bump(handled, id, 1), u) ==
            RefundedFees(ids, all, handled, u) + (if all[id].owner == u then all[id].feeAmount else 0)
  {
    SetOfAppend(ids);
    var front, last := ids[..|ids| - 1], ids[|ids| - 1];
    if last == id {
      RefundedFeesElsewhere(front, all, handled, id, u);
      assert all[id].feeAmount * (At(handled, id) + 1) == all[id].feeAmount * At(handled, id) + all[id].feeAmount;
    } else {
      RefundedFeesBump(front, all, handled, id, u);
    }
  }

  lemma FeesAppend(ids: seq<string>, all: Records, all': Records, handled: map<string, nat>, id: string, u: Principal)
    requires SameTerms(all, all') && SetOf(ids) <= all.Keys && id in all'
    ensures CreatedFees(ids + [id], all', u) ==
            CreatedFees(ids, all, u) + (if all'[id].owner == u then all'[id].feeAmount else 0)
    ensures RefundedFees(ids + [id], all', handled, u) ==
            RefundedFees(ids, all, handled, u) + (if all'[id].owner == u then all'[id].feeAmount * At(handled, id) else 0)
  {
    assert (ids + [id])[..|ids|] == ids;
    FeesUnchanged(ids, all, all', handled, u);
  }

  // ---------- In-flight executions under change ----------

  lemma InFlightResume(tasks: map<nat, Task>, t: nat, id: string)
    requires t in tasks
    ensures |InFlight(tasks - {t}, id)| ==
            |InFlight(tasks, id)| - (if IsExecution(tasks[t]) && tasks[t].x.id == id then 1 else 0)
  {
    assert InFlight(tasks - {t}, id) == InFlight(tasks, id) - {t};
  }

  lemma InFlightSuspend(tasks: map<nat, Task>, t: nat, task: Task, id: string)
    requires t !in tasks
    ensures |InFlight(tasks[t := task], id)| ==
            |InFlight(tasks, id)| + (if IsExecution(task) && task.x.id == id then 1 else 0)
  {
    if IsExecution(task) && task.x.id == id {
      assert InFlight(tasks[t := task], id) == InFlight(tasks, id) + {t};
    } else {
      assert InFlight(tasks[t := task], id) == InFlight(tasks, id);
    }
  }

  // ---------- Steps that touch neither books nor records ----------

  /** One begun execution of `id` is neither suspended nor handled: it is the one running. */
  ghost predicate Spare(m: Machine, id: string) {
    At(m.h.handled, id) + |InFlight(m.tasks, id)| < At(m.h.started, id)
  }

  lemma InvAfterResume(m: Machine, t: nat)
    requires Inv(m) && t in m.tasks
    ensures Inv(Resume(m, t))
    ensures IsExecution(m.tasks[t]) ==> Spare(Resume(m, t), m.tasks[t].x.id)
  {
    var tasks := m.tasks - {t};
    forall id ensures At(m.h.handled, id) + |InFlight(tasks, id)| <= At(m.h.started, id) {
      InFlightResume(m.tasks, t, id);
    }
    assert ExecutionsOk(tasks, m.h.handled, m.h.started, m.h.created);
    assert TasksOk(tasks, m.nextTask, All(m));
    if IsExecution(m.tasks[t]) {
      InFlightResume(m.tasks, t, m.tasks[t].x.id);
    }
  }

  lemma InvAfterSuspendCall(m: Machine, task: Task)
    requires Inv(m) && !IsExecution(task)
    ensures Inv(Suspend(m, task))
  {
    var tasks := m.tasks[m.nextTask := task];
    forall id ensures At(m.h.handled, id) + |InFlight(tasks, id)| <= At(m.h.started, id) {
      InFlightSuspend(m.tasks, m.nextTask, task, id);
    }
    assert ExecutionsOk(tasks, m.h.handled, m.h.started, m.h.created);
    assert TasksOk(tasks, m.nextTask + 1, All(m));
  }

  lemma InvAfterSuspendExecution(m: Machine, task: Task)
    requires Inv(m) && IsExecution(task) && Spare(m, task.x.id) && ExecutionOk(task.x, All(m))
    ensures Inv(Suspend(m, task))
  {
    var tasks := m.tasks[m.nextTask := task];
    forall id ensures At(m.h.handled, id) + |InFlight(tasks, id)| <= At(m.h.started, id) {
      InFlightSuspend(m.tasks, m.nextTask, task, id);
    }
    assert ExecutionsOk(tasks, m.h.handled, m.h.started, m.h.created);
    assert TasksOk(tasks, m.nextTask + 1, All(m));
  }

  lemma InvAfterCountStart(m: Machine, id: string)
    requires Inv(m) && id in m.h.created
    ensures Inv(CountStart(m, id)) && Spare(CountStart(m, id), id)
  {
    assert ExecutionsOk(m.tasks, m.h.handled, Bump(m.h.started, id, 1), m.h.created);
  }

  // ---------- Steps that change one record ----------

  /** What depends on owners and fees only survives any change that keeps them. */
  lemma SumsAfterSameTerms(m: Machine, all: Records)
    requires Inv(m) && SameTerms(All(m), all)
    ensures FeesOk(m.s.books.log, m.h.created, all, m.h.orphaned)
    ensures RefundSumsOk(m.s.books.log, m.h.created, all, m.h.handled)
    ensures TasksOk(m.tasks, m.nextTask, all)
  {
    forall u ensures CreatedFees(m.h.created, all, u) == CreatedFees(m.h.created, All(m), u)
      ensures RefundedFees(m.h.created, all, m.h.handled, u) == RefundedFees(m.h.created, All(m), m.h.handled, u)
    {
      FeesUnchanged(m.h.created, All(m), all, m.h.handled, u);
    }
  }

  /** Replacing a record by one with the same terms and a resting status. */
  lemma InvAfterSetRecord(m: Machine, id: string, r: DeploymentRecord)
    requires Inv(m) && id in m.s.records
    requires r.deploymentId == id && r.owner == m.s.records[id].owner && r.feeAmount == m.s.records[id].feeAmount
    requires r.strategyType.SelfHedging? && Restful(r.status)
    ensures Inv(SetRecord(m, id, r))
  {
    assert r.feeAmount >= 1;
    hide BooksMatchLog, ExternalOk, FeesOk, RefundSumsOk, CountsOk, ExecutionsOk, IdsOk, RecordsOk, TasksOk;
    var m' := SetRecord(m, id, r);
    IdsAfterUpdate(m.h.created, m.s.records, m.h.archived, m.h.issued, m.s.idCounter, id, r);
    RecordsAfterUpdate(m.s.records, m.h.archived, id, r);
    TermsAfterUpdate(m.s.records, m.h.archived, id, r);
    SumsAfterSameTerms(m, All(m'));
  }

  lemma IdsAfterUpdate(created: seq<string>, rs: Records, archived: Records, issued: nat, counter: u64, id: string, r: DeploymentRecord)
    requires IdsOk(created, rs, archived, issued, counter) && id in rs
    ensures IdsOk(created, rs[id := r], archived, issued, counter)
  {
    hide IssuedBelow, Distinct;
    assert rs[id := r].Keys == rs.Keys;
  }

  lemma RecordsAfterUpdate(rs: Records, archived: Records, id: string, r: DeploymentRecord)
    requires RecordsOk(rs, archived)
    requires r.deploymentId == id && r.feeAmount >= 1 && r.strategyType.SelfHedging? && Restful(r.status)
    ensures RecordsOk(rs[id := r], archived)
  {
  }

  lemma TermsAfterUpdate(rs: Records, archived: Records, id: string, r: DeploymentRecord)
    requires id in rs && r.owner == rs[id].owner && r.feeAmount == rs[id].feeAmount
    ensures SameTerms(archived + rs, archived + rs[id := r])
  {
  }

  // ---------- Steps that post to the books ----------

  function PostedRecord(user: Principal, amount: u64, kind: TransactionType, description: Description, env: Env): TransactionRecord {
    TransactionRecord(TransactionId(env), user, amount, kind, env.now, description)
  }

  lemma PostedLog(b: Books, t: TransactionRecord, log: seq<TransactionRecord>)
    requires log == b.log + [t]
    ensures forall u, k :: KindSum(log, u, k) == KindSum(b.log, u, k) + Moved(t, u, k)
    ensures forall id :: RefundCount(log, id) == RefundCount(b.log, id) + Refunds(t, id)
  {
    forall u, k ensures KindSum(log, u, k) == KindSum(b.log, u, k) + Moved(t, u, k) {
      AppendToLog(b.log, t, u);
    }
    forall id ensures RefundCount(log, id) == RefundCount(b.log, id) + Refunds(t, id) {
      AppendToLog(b.log, t, t.user);
    }
  }

  lemma ExternalAfterPost(log: seq<TransactionRecord>, log': seq<TransactionRecord>, t: TransactionRecord,
                          paidIn: map<Principal, nat>, adjusted: map<Principal, nat>,
                          paidOut: map<Principal, nat>, undebited: map<Principal, nat>)
    requires ExternalOk(log, paidIn, adjusted, paidOut, undebited)
    requires forall u, k :: KindSum(log', u, k) == KindSum(log, u, k) + Moved(t, u, k)
    ensures ExternalOk(log',
                       if t.transactionType.Deposit? then Bump(paidIn, t.user, t.amount) else paidIn,
                       if t.transactionType.AdminAdjustment? then Bump(adjusted, t.user, t.amount) else adjusted,
                       if t.transactionType.Withdrawal? then Bump(paidOut, t.user, t.amount) else paidOut,
                       undebited)
  {
  }

  lemma FeesAfterOtherPost(m: Machine, log: seq<TransactionRecord>, t: TransactionRecord)
    requires FeesOk(m.s.books.log, m.h.created, All(m), m.h.orphaned)
    requires RefundSumsOk(m.s.books.log, m.h.created, All(m), m.h.handled)
    requires CountsOk(m.s.books.log, m.h.handled)
    requires forall u, k :: KindSum(log, u, k) == KindSum(m.s.books.log, u, k) + Moved(t, u, k)
    requires forall id :: RefundCount(log, id) == RefundCount(m.s.books.log, id) + Refunds(t, id)
    requires !t.transactionType.Refund? && !t.transactionType.DeploymentFee?
    ensures FeesOk(log, m.h.created, All(m), m.h.orphaned)
    ensures RefundSumsOk(log, m.h.created, All(m), m.h.handled)
    ensures CountsOk(log, m.h.handled)
  {
  }

  /** A deposit, a withdrawal or an adjustment, booked together with its outside counterpart. */
  lemma InvAfterExternalPost(m: Machine, m': Machine, user: Principal, amount: u64, kind: TransactionType,
                             description: Description, env: Env)
    requires Inv(m) && (kind.Deposit? || kind.Withdrawal? || kind.AdminAdjustment?)
    requires IsCredit(kind) || GetUserAccount(m.s.books, user).balance >= amount
    requires m' == m.(s := m.s.(books := Post(m.s.books, user, amount, kind, description, env)),
                      h := m.h.(paidIn := if kind.Deposit? then Bump(m.h.paidIn, user, amount) else m.h.paidIn,
                                paidOut := if kind.Withdrawal? then Bump(m.h.paidOut, user, amount) else m.h.paidOut,
                                adjusted := if kind.AdminAdjustment? then Bump(m.h.adjusted, user, amount) else m.h.adjusted))
    ensures Inv(m')
  {
    hide BooksMatchLog, IdsOk, RecordsOk, TasksOk, ExternalOk, FeesOk, RefundSumsOk, CountsOk, ExecutionsOk, Post;
    PostKeepsBooks(m.s.books, m.h.cacheBase, user, amount, kind, description, env);
    PostShape(m.s.books, user, amount, kind, description, env);
    var t := PostedRecord(user, amount, kind, description, env);
    PostedLog(m.s.books, t, m'.s.books.log);
    ExternalAfterPost(m.s.books.log, m'.s.books.log, t, m.h.paidIn, m.h.adjusted, m.h.paidOut, m.h.undebited);
    FeesAfterOtherPost(m, m'.s.books.log, t);
  }

  /** A withdrawal that was paid although the balance had shrunk in the meantime. */
  lemma InvAfterUndebited(m: Machine, user: Principal, amount: u64)
    requires Inv(m)
    ensures Inv(m.(h := m.h.(paidOut := Bump(m.h.paidOut, user, amount), undebited := Bump(m.h.undebited, user, amount))))
  {
    hide BooksMatchLog, IdsOk, RecordsOk, TasksOk, FeesOk, RefundSumsOk, CountsOk, ExecutionsOk;
    hide ExternalOk;
    ExternalAfterUndebited(m.s.books.log, m.h.paidIn, m.h.adjusted, m.h.paidOut, m.h.undebited, user, amount);
  }

  lemma ExternalAfterUndebited(log: seq<TransactionRecord>, paidIn: map<Principal, nat>, adjusted: map<Principal, nat>,
                               paidOut: map<Principal, nat>, undebited: map<Principal, nat>, user: Principal, amount: u64)
    requires ExternalOk(log, paidIn, adjusted, paidOut, undebited)
    ensures ExternalOk(log, paidIn, adjusted, Bump(paidOut, user, amount), Bump(undebited, user, amount))
  {
    hide KindSum;
  }

  lemma RefundSumsAfterRefund(m: Machine, id: string, log: seq<TransactionRecord>, t: TransactionRecord)
    requires Inv(m) && id in m.s.records
    requires log == m.s.books.log + [t]
    requires t.user == m.s.records[id].owner && t.amount == m.s.records[id].feeAmount
    requires t.transactionType == Refund && t.description == RefundForDeployment(id)
    ensures RefundSumsOk(log, m.h.created, All(m), Bump(m.h.handled, id, 1))
    ensures CountsOk(log, Bump(m.h.handled, id, 1))
    ensures FeesOk(log, m.h.created, All(m), m.h.orphaned)
    ensures ExternalOk(log, m.h.paidIn, m.h.adjusted, m.h.paidOut, m.h.undebited)
  {
    PostedLog(m.s.books, t, log);
    assert id in SetOf(m.h.created);
    forall u ensures KindSum(log, u, Refund) == RefundedFees(m.h.created, All(m), Bump(m.h.handled, id, 1), u) {
      RefundedFeesBump(m.h.created, All(m), m.h.handled, id, u);
    }
  }

  lemma InvAfterRefund(m: Machine, id: string, canister: Option<Principal>, caller: Principal)
    requires Inv(m) && id in m.s.records && Spare(m, id)
    ensures Inv(RefundIn(m, id, canister, caller))
  {
    var r := m.s.records[id];
    var env := EnvOf(m, caller);
    var b := Post(m.s.books, r.owner, r.feeAmount, Refund, RefundForDeployment(id), env);
    PostKeepsBooks(m.s.books, m.h.cacheBase, r.owner, r.feeAmount, Refund, RefundForDeployment(id), env);
    PostShape(m.s.books, r.owner, r.feeAmount, Refund, RefundForDeployment(id), env);
    RefundSumsAfterRefund(m, id, b.log, PostedRecord(r.owner, r.feeAmount, Refund, RefundForDeployment(id), env));
    var m1 := m.(s := m.s.(books := b), h := m.h.(handled := Bump(m.h.handled, id, 1)));
    assert ExecutionsOk(m1.tasks, m1.h.handled, m1.h.started, m1.h.created);
    assert Inv(m1);
    InvAfterSetRecord(m1, id, RefundedRecord(r, canister, m.now));
  }

  lemma InvAfterOrphan(m: Machine, caller: Principal)
    requires Inv(m) && m.s.fee >= 1 && GetUserAccount(m.s.books, caller).balance >= m.s.fee
    ensures Inv(PayFee(m, caller).(h := PayFee(m, caller).h.(orphaned := Bump(m.h.orphaned, caller, m.s.fee))))
  {
    hide BooksMatchLog, IdsOk, RecordsOk, TasksOk, ExternalOk, FeesOk, RefundSumsOk, CountsOk, ExecutionsOk, Post;
    var t := BooksAfterFee(m, caller);
    FeesAfterOrphan(m.s.books.log, PayFee(m, caller).s.books.log, t, m.h.created, All(m), m.h.orphaned, m.h.handled);
    IdsAfterIssue(m);
  }

  lemma FeesAfterOrphan(log: seq<TransactionRecord>, log': seq<TransactionRecord>, t: TransactionRecord, created: seq<string>,
                        all: Records, orphaned: map<Principal, nat>, handled: map<string, nat>)
    requires FeesOk(log, created, all, orphaned) && RefundSumsOk(log, created, all, handled)
    requires t.transactionType.DeploymentFee?
    requires forall u, k :: KindSum(log', u, k) == KindSum(log, u, k) + Moved(t, u, k)
    ensures FeesOk(log', created, all, Bump(orphaned, t.user, t.amount))
    ensures RefundSumsOk(log', created, all, handled)
  {
    hide KindSum;
  }

  lemma IdsAfterIssue(m: Machine)
    requires Inv(m)
    ensures IdsOk(m.h.created, m.s.records, m.h.archived, m.h.issued + 1, WrapAdd64(m.s.idCounter, 1))
  {
  }

  /** A generated id differs from every id generated before it. */
  lemma NewIdIsFresh(m: Machine, caller: Principal)
    requires Inv(m) && m.h.issued < TWO_64
    ensures NewId(m, caller) !in m.h.created
    ensures IssuedBelow(NewId(m, caller), m.h.issued + 1)
  {
    var id := NewId(m, caller);
    assert m.s.idCounter == m.h.issued;
    if id in m.h.created {
      assert IssuedBelow(id, m.h.issued);
      var t: u64, c: Principal, k: u64 :| k < m.h.issued && id == Ids.DeploymentId(t, c, k);
      Ids.DeploymentIdInjective(m.now, caller, m.s.idCounter, t, c, k);
      assert false;
    }
  }

  lemma IdsAfterCreate(m: Machine, caller: Principal, r: DeploymentRecord)
    requires Inv(m) && m.h.issued < TWO_64
    ensures var id := NewId(m, caller);
            IdsOk(m.h.created + [id], m.s.records[id := r], m.h.archived, m.h.issued + 1, WrapAdd64(m.s.idCounter, 1))
  {
    hide BooksMatchLog, RecordsOk, TasksOk, ExternalOk, FeesOk, RefundSumsOk, CountsOk, ExecutionsOk;
    var id := NewId(m, caller);
    NewIdIsFresh(m, caller);
    IdsAfterIssue(m);
    hide Inv, Ids.DeploymentId;
    IdsAppend(m.h.created, m.s.records, m.h.archived, m.h.issued + 1, WrapAdd64(m.s.idCounter, 1), id, r);
  }

  lemma IdsAppend(created: seq<string>, rs: Records, archived: Records, issued: nat, counter: u64, id: string, r: DeploymentRecord)
    requires IdsOk(created, rs, archived, issued, counter) && id !in created && IssuedBelow(id, issued)
    ensures IdsOk(created + [id], rs[id := r], archived, issued, counter)
  {
    hide IssuedBelow;
    assert id !in SetOf(created);
    assert SetOf(created + [id]) == SetOf(created) + {id};
    assert rs[id := r].Keys == rs.Keys + {id};
  }

  lemma CreatedAreAll(m: Machine)
    requires Inv(m)
    ensures SetOf(m.h.created) == All(m).Keys
  {
  }

  lemma FeesAfterCreate(log: seq<TransactionRecord>, log': seq<TransactionRecord>, t: TransactionRecord, created: seq<string>,
                        all: Records, all': Records, orphaned: map<Principal, nat>, handled: map<string, nat>, id: string)
    requires FeesOk(log, created, all, orphaned) && RefundSumsOk(log, created, all, handled)
    requires SameTerms(all, all') && SetOf(created) <= all.Keys && id in all' && At(handled, id) == 0
    requires t.user == all'[id].owner && t.amount == all'[id].feeAmount && t.transactionType.DeploymentFee?
    requires forall u, k :: KindSum(log', u, k) == KindSum(log, u, k) + Moved(t, u, k)
    ensures FeesOk(log', created + [id], all', orphaned)
    ensures RefundSumsOk(log', created + [id], all', handled)
  {
    forall u ensures KindSum(log', u, DeploymentFee) == CreatedFees(created + [id], all', u) + At(orphaned, u)
      ensures KindSum(log', u, Refund) == RefundedFees(created + [id], all', handled, u)
    {
      FeesAppend(created, all, all', handled, id, u);
    }
  }

  lemma CountsAfterFee(log: seq<TransactionRecord>, log': seq<TransactionRecord>, t: TransactionRecord, handled: map<string, nat>)
    requires CountsOk(log, handled) && t.transactionType.DeploymentFee?
    requires forall id :: RefundCount(log', id) == RefundCount(log, id) + Refunds(t, id)
    ensures CountsOk(log', handled)
  {
  }

  /** The part of a request that is booked: the fee and its record in the log. */
  lemma BooksAfterFee(m: Machine, caller: Principal) returns (t: TransactionRecord)
    requires Inv(m) && m.s.fee >= 1 && GetUserAccount(m.s.books, caller).balance >= m.s.fee
    ensures t.user == caller && t.amount == m.s.fee && t.transactionType.DeploymentFee?
    ensures BooksMatchLog(PayFee(m, caller).s.books, m.h.cacheBase)
    ensures var log' := PayFee(m, caller).s.books.log;
            && (forall u, k :: KindSum(log', u, k) == KindSum(m.s.books.log, u, k) + Moved(t, u, k))
            && CountsOk(log', m.h.handled)
            && ExternalOk(log', m.h.paidIn, m.h.adjusted, m.h.paidOut, m.h.undebited)
  {
    hide BooksMatchLog, IdsOk, RecordsOk, TasksOk, ExternalOk, FeesOk, RefundSumsOk, CountsOk, ExecutionsOk, Post;
    var env := EnvOf(m, caller);
    PostKeepsBooks(m.s.books, m.h.cacheBase, caller, m.s.fee, DeploymentFee, FeeForStrategy, env);
    PostShape(m.s.books, caller, m.s.fee, DeploymentFee, FeeForStrategy, env);
    t := PostedRecord(caller, m.s.fee, DeploymentFee, FeeForStrategy, env);
    var log' := PayFee(m, caller).s.books.log;
    PostedLog(m.s.books, t, log');
    ExternalAfterPost(m.s.books.log, log', t, m.h.paidIn, m.h.adjusted, m.h.paidOut, m.h.undebited);
    CountsAfterFee(m.s.books.log, log', t, m.h.handled);
  }

  lemma RecordsAfterCreate(m: Machine, id: string, r: DeploymentRecord)
    requires Inv(m) && id !in m.h.created
    requires r.deploymentId == id && r.feeAmount >= 1 && r.strategyType.SelfHedging? && Restful(r.status)
    ensures RecordsOk(m.s.records[id := r], m.h.archived)
    ensures SameTerms(All(m), m.h.archived + m.s.records[id := r]) && id !in All(m)
    ensures SetOf(m.h.created) == All(m).Keys && At(m.h.handled, id) == 0 && |InFlight(m.tasks, id)| == 0
    ensures ExecutionsOk(m.tasks, m.h.handled, Bump(m.h.started, id, 1), m.h.created + [id])
  {
    hide BooksMatchLog, TasksOk, ExternalOk, FeesOk, RefundSumsOk, CountsOk, IdsOk, RecordsOk, ExecutionsOk;
    CreatedAreAll(m);
    assert id !in SetOf(m.h.created);
    RecordsAfterUpdate(m.s.records, m.h.archived, id, r);
    ExecutionsAfterStart(m.tasks, m.h.handled, m.h.started, m.h.created, id);
  }

  lemma ExecutionsAfterStart(tasks: map<nat, Task>, handled: map<string, nat>, started: map<string, nat>, created: seq<string>, id: string)
    requires ExecutionsOk(tasks, handled, started, created) && id !in created
    ensures At(handled, id) == 0 && |InFlight(tasks, id)| == 0
    ensures ExecutionsOk(tasks, handled, Bump(started, id, 1), created + [id])
  {
    assert At(handled, id) + |InFlight(tasks, id)| <= At(started, id) == 0;
  }

  lemma InvAfterCreate(m: Machine, caller: Principal)
    requires Inv(m) && m.h.issued < TWO_64
    requires m.s.fee >= 1 && GetUserAccount(m.s.books, caller).balance >= m.s.fee
    ensures var id := NewId(m, caller);
            var c := CreateRecord(PayFee(m, caller), id, caller, m.s.fee);
            && Inv(c) && Spare(c, id) && id in c.s.records
            && ExecutionOk(Execution(id, c.s.records[id], true, caller), All(c))
  {
    hide BooksMatchLog, IdsOk, RecordsOk, TasksOk, ExternalOk, FeesOk, RefundSumsOk, CountsOk, ExecutionsOk, Post;
    var id := NewId(m, caller);
    var c := CreateRecord(PayFee(m, caller), id, caller, m.s.fee);
    var r := NewRecord(id, SelfHedging, caller, m.s.fee, m.now);
    var t := BooksAfterFee(m, caller);
    NewIdIsFresh(m, caller);
    IdsAfterCreate(m, caller, r);
    RecordsAfterCreate(m, id, r);
    SumsAfterSameTerms(m, All(c));
    FeesAfterCreate(m.s.books.log, c.s.books.log, t, m.h.created, All(m), All(c), m.h.orphaned, m.h.handled, id);
  }

  // ---------- Maintenance ----------

  lemma InvAfterCleanup(m: Machine, shouldArchive: bool, order: seq<string>)
    requires Inv(m) && Enumerates(order, m.s.records)
    ensures Inv(DoCleanup(m, shouldArchive, order))
  {
    hide BooksMatchLog, TasksOk, ExternalOk, FeesOk, RefundSumsOk, CountsOk, ExecutionsOk;
    var gone := CleanupCases(m, shouldArchive, order);
    ArchivingKeepsAll(m.s.records, m.h.archived, gone, m.h.created, m.h.issued, m.s.idCounter);
  }

  /** Moving completed records to the archive loses none. */
  lemma ArchivingKeepsAll(rs: Records, archived: Records, gone: set<string>, created: seq<string>, issued: nat, counter: u64)
    requires IdsOk(created, rs, archived, issued, counter) && RecordsOk(rs, archived)
    requires gone <= CompletedIn(rs)
    ensures var archived' := archived + (map id | id in gone :: rs[id]);
            && IdsOk(created, rs - gone, archived', issued, counter)
            && RecordsOk(rs - gone, archived')
            && archived' + (rs - gone) == archived + rs
  {
    hide IssuedBelow, Distinct;
    var moved := map id | id in gone :: rs[id];
    var archived' := archived + moved;
    assert archived'.Keys == archived.Keys + gone;
    assert (rs - gone).Keys == rs.Keys - gone;
    assert gone <= rs.Keys;
    assert (rs - gone).Keys + archived'.Keys == rs.Keys + archived.Keys;
    UnionAfterMove(rs, archived, gone);
  }

  lemma UnionAfterMove(rs: Records, archived: Records, gone: set<string>)
    requires gone <= rs.Keys && rs.Keys !! archived.Keys
    ensures (archived + (map id | id in gone :: rs[id])) + (rs - gone) == archived + rs
  {
  }

  lemma InvAfterUpgrade(m: Machine)
    requires Inv(m)
    ensures Inv(DoUpgrade(m))
  {
    var m' := DoUpgrade(m);
    UpgradeRoundTrip(m.s);
    forall u ensures GetUserAccount(m'.s.books, u) == Replay(m'.s.books.log, u) {
      assert GetUserAccount(m.s.books, u) == Replay(m.s.books.log, u);
    }
    assert BooksMatchLog(m'.s.books, m'.h.cacheBase);
    forall id ensures InFlight(m'.tasks, id) == {} {
    }
    assert ExecutionsOk(m'.tasks, m'.h.handled, m'.h.started, m'.h.created);
  }

  // ---------- Every step ----------

  lemma InvAfterRequest(m: Machine, caller: Principal, request: Request, cycles: nat)
    requires Inv(m) && DoRequest(m, caller, request, cycles).h.issued <= TWO_64
    ensures Inv(DoRequest(m, caller, request, cycles))
  {
    RequestCases(m, caller, request, cycles);
    if Accepted(m, caller, request) {
      if !request.encodes {
        InvAfterOrphan(m, caller);
      } else {
        var id := NewId(m, caller);
        var c := CreateRecord(PayFee(m, caller), id, caller, m.s.fee);
        InvAfterCreate(m, caller);
        if cycles < CREATION_CYCLES {
          InvAfterRefund(c, id, None, caller);
        } else {
          InvAfterSuspendExecution(c, CreateCall(Execution(id, c.s.records[id], true, caller)));
        }
      }
    }
  }

  lemma InvAfterForce(m: Machine, admin: Principal, id: string, cycles: nat)
    requires Inv(m)
    ensures Inv(DoForce(m, admin, id, cycles))
  {
    ForceCases(m, admin, id, cycles);
    if id in m.s.records {
      assert id in SetOf(m.h.created);
      InvAfterCountStart(m, id);
      var c := CountStart(m, id);
      if cycles < CREATION_CYCLES {
        InvAfterRefund(c, id, None, admin);
      } else {
        InvAfterSuspendExecution(c, CreateCall(Execution(id, m.s.records[id], false, admin)));
      }
    }
  }

  /** A record advances and its execution is suspended again. */
  lemma InvAfterAdvance(m: Machine, x: Execution, r: DeploymentRecord, task: Task)
    requires Inv(m) && x.id in m.s.records && Spare(m, x.id) && ExecutionOk(x, All(m))
    requires r.deploymentId == x.id && r.owner == m.s.records[x.id].owner && r.feeAmount == m.s.records[x.id].feeAmount
    requires r.strategyType.SelfHedging? && Restful(r.status)
    requires IsExecution(task) && task.x == x
    ensures Inv(Suspend(SetRecord(m, x.id, r), task))
  {
    hide BooksMatchLog, IdsOk, RecordsOk, TasksOk, ExternalOk, FeesOk, RefundSumsOk, CountsOk, ExecutionsOk, SameTerms;
    InvAfterSetRecord(m, x.id, r);
    TermsAfterUpdate(m.s.records, m.h.archived, x.id, r);
    ExecutionStaysOk(x, All(m), All(SetRecord(m, x.id, r)));
    InvAfterSuspendExecution(SetRecord(m, x.id, r), task);
  }

  lemma ExecutionStaysOk(x: Execution, all: Records, all': Records)
    requires ExecutionOk(x, all) && SameTerms(all, all')
    ensures ExecutionOk(x, all')
  {
  }

  lemma InvAfterAddCanister(m: Machine, cid: Principal)
    requires Inv(m)
    ensures Inv(AddCanister(m, cid))
  {
  }

  lemma InvAfterCreateAnswered(m: Machine, task: nat, created: Option<Principal>)
    requires Inv(m) && task in m.tasks && m.tasks[task].CreateCall?
    ensures Inv(DoCreateAnswered(m, task, created))
  {
    var x := m.tasks[task].x;
    CreateAnsweredCases(m, task, created);
    InvAfterResume(m, task);
    var m1 := Resume(m, task);
    if created.None? {
      if x.id in m.s.records {
        InvAfterRefund(m1, x.id, None, x.caller);
      }
    } else {
      var m2 := AddCanister(m1, created.value);
      InvAfterAddCanister(m1, created.value);
      if x.id in m.s.records {
        InvAfterAdvance(m2, x, Advanced(m.s.records[x.id], CanisterCreated, created.value, m.now), InstallCall(x, created.value));
      }
    }
  }

  lemma InvAfterInstallAnswered(m: Machine, task: nat, installed: bool, decodes: bool)
    requires Inv(m) && task in m.tasks && m.tasks[task].InstallCall?
    ensures Inv(DoInstallAnswered(m, task, installed, decodes))
  {
    var x := m.tasks[task].x;
    var cid := m.tasks[task].canister;
    InstallAnsweredCases(m, task, installed, decodes);
    InvAfterResume(m, task);
    var m1 := Resume(m, task);
    if x.id in m.s.records {
      if installed && decodes {
        InvAfterAdvance(m1, x, Advanced(m.s.records[x.id], CodeInstalled, cid, m.now), InitCall(x, cid));
      } else {
        InvAfterRefund(m1, x.id, Some(cid), x.caller);
      }
    }
  }

  lemma InvAfterInitAnswered(m: Machine, task: nat, initialized: bool, decodes: bool)
    requires Inv(m) && task in m.tasks && m.tasks[task].InitCall?
    ensures Inv(DoInitAnswered(m, task, initialized, decodes))
  {
    var x := m.tasks[task].x;
    var cid := m.tasks[task].canister;
    InitAnsweredCases(m, task, initialized, decodes);
    InvAfterResume(m, task);
    var m1 := Resume(m, task);
    if x.id in m.s.records {
      if initialized && decodes {
        InvAfterSetRecord(m1, x.id, Advanced(m.s.records[x.id], Deployed, cid, m.now));
      } else {
        InvAfterRefund(m1, x.id, Some(cid), x.caller);
      }
    }
  }

  lemma InvAfterEndDeposit(m: Machine, task: nat, paid: bool)
    requires Inv(m) && task in m.tasks && m.tasks[task].DepositCall?
    ensures Inv(DoEndDeposit(m, task, paid))
  {
    var t := m.tasks[task];
    EndDepositCases(m, task, paid);
    InvAfterResume(m, task);
    if paid {
      InvAfterExternalPost(Resume(m, task), DoEndDeposit(m, task, paid), t.user, t.amount, Deposit, DepositOf(t.amount), EnvOf(m, t.user));
    }
  }

  lemma InvAfterEndWithdrawal(m: Machine, task: nat, paid: bool)
    requires Inv(m) && task in m.tasks && m.tasks[task].WithdrawCall?
    ensures Inv(DoEndWithdrawal(m, task, paid))
  {
    var t := m.tasks[task];
    EndWithdrawalCases(m, task, paid);
    InvAfterResume(m, task);
    if paid {
      if GetUserAccount(m.s.books, t.user).balance >= t.amount {
        InvAfterExternalPost(Resume(m, task), DoEndWithdrawal(m, task, paid), t.user, t.amount, Withdrawal, WithdrawalOf(t.amount), EnvOf(m, t.user));
      } else {
        InvAfterUndebited(Resume(m, task), t.user, t.amount);
      }
    }
  }

  /** Every possible step keeps the invariant, as long as the 64-bit id counter has not wrapped. */
  lemma InvAfterStep(m: Machine, e: Event)
    requires Inv(m) && Step(m, e).h.issued <= TWO_64
    ensures Inv(Step(m, e))
  {
    hide BooksMatchLog, IdsOk, RecordsOk, TasksOk, ExternalOk, FeesOk, RefundSumsOk, CountsOk, ExecutionsOk,
         DoRequest, DoForce, DoCreateAnswered, DoInstallAnswered, DoInitAnswered, DoEndDeposit, DoEndWithdrawal, DoCleanup, DoUpgrade;
    match e
    case Tick(t) =>
    case SetFee(fee) =>
    case Adjust(user, amount, reason, admin) =>
      AdjustCases(m, e);
      InvAfterExternalPost(m, DoAdjust(m, e), user, amount, AdminAdjustment, Reason(reason), EnvOf(m, admin));
    case BeginDeposit(user, amount) => InvAfterSuspendCall(m, DepositCall(user, amount));
    case EndDeposit(task, paid) =>
      if task in m.tasks && m.tasks[task].DepositCall? { InvAfterEndDeposit(m, task, paid); }
    case BeginWithdrawal(user, amount, cycles) => InvAfterSuspendCall(m, WithdrawCall(user, amount));
    case EndWithdrawal(task, paid) =>
      if task in m.tasks && m.tasks[task].WithdrawCall? { InvAfterEndWithdrawal(m, task, paid); }
    case RequestStrategy(caller, request, cycles) =>
      if caller != ANONYMOUS { InvAfterRequest(m, caller, request, cycles); }
    case ForceExecute(admin, id, cycles) => InvAfterForce(m, admin, id, cycles);
    case CreateAnswered(task, created) =>
      if task in m.tasks && m.tasks[task].CreateCall? { InvAfterCreateAnswered(m, task, created); }
    case InstallAnswered(task, installed, decodes) =>
      if task in m.tasks && m.tasks[task].InstallCall? { InvAfterInstallAnswered(m, task, installed, decodes); }
    case InitAnswered(task, initialized, decodes) =>
      if task in m.tasks && m.tasks[task].InitCall? { InvAfterInitAnswered(m, task, initialized, decodes); }
    case Cleanup(shouldArchive, order) =>
      if Enumerates(order, m.s.records) { InvAfterCleanup(m, shouldArchive, order); }
    case UpgradeCanister => InvAfterUpgrade(m);
  }
}
