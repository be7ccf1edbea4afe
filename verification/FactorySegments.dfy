/** What each segment of a deployment amounts to: the record advances, the fee goes back, or
    the record is gone and nothing happens. */
module FactorySegments {
  import opened Common
  import opened Ledger
  import opened Deployments
  import opened Factory
  import opened FactoryMachine
  import Ids

  /** Status, canister and time of a record after a successful step. */
  function Advanced(r: DeploymentRecord, status: DeploymentStatus, canister: Principal, now: u64): DeploymentRecord {
    WithStatus(r, status, Some(canister), None, now)
  }

  function RefundedRecord(r: DeploymentRecord, canister: Option<Principal>, now: u64): DeploymentRecord {
    WithStatus(r, Refunded, canister, Some(FeeRefunded), now)
  }

  /** The fee of a stored deployment goes back to its owner. */
  function Refunding(s: State, id: string, canister: Option<Principal>, env: Env): State
    requires id in s.records
  {
    var r := s.records[id];
    s.(books := Post(s.books, r.owner, r.feeAmount, Refund, RefundForDeployment(id), env),
       records := s.records[id := RefundedRecord(r, canister, env.now)])
  }

  /** The failure handler refunds at once, so that no record stays marked failed, and what it
      returns never makes the spawned task refund again. */
  lemma FailRefundsOnce(s: State, x: Execution, canister: Option<Principal>, message: Message, env: Env)
    requires x.id in s.records && s.records[x.id].feeAmount >= 1
    ensures Fail(s, x, canister, message, env) == Segment(Refunding(s, x.id, canister, env), Done(Ok(Failure(message))))
  {
    var r := s.records[x.id];
    var failed := WithStatus(r, DeploymentFailed, canister, Some(message), env.now);
    assert WithStatus(failed, Refunded, None, Some(FeeRefunded), env.now) == RefundedRecord(r, canister, env.now);
    var rs := s.records[x.id := failed];
    assert rs[x.id := RefundedRecord(r, canister, env.now)] == s.records[x.id := RefundedRecord(r, canister, env.now)];
  }

  /** Without a record the failure handler and the spawned task do nothing. */
  lemma FailWithoutRecord(s: State, x: Execution, canister: Option<Principal>, message: Message, env: Env)
    requires x.id !in s.records
    ensures Fail(s, x, canister, message, env) == Segment(s, Done(Err(SystemFailure)))
  {
  }

  /** Overwriting a status in one segment leaves only the last one, with the same canister. */
  lemma StatusOverwritten(r: DeploymentRecord, mid: DeploymentStatus, canister: Principal, now: u64)
    ensures RefundedRecord(Advanced(r, mid, canister, now), Some(canister), now) == RefundedRecord(r, Some(canister), now)
    ensures Advanced(Advanced(r, mid, canister, now), Deployed, canister, now) == Advanced(r, Deployed, canister, now)
  {
  }

  lemma AdvanceThenFail(s: State, x: Execution, mid: DeploymentStatus, canister: Principal, message: Message, env: Env)
    requires x.id in s.records && s.records[x.id].feeAmount >= 1
    ensures var s1 := s.(records := s.records[x.id := Advanced(s.records[x.id], mid, canister, env.now)]);
            Fail(s1, x, Some(canister), message, env) ==
            Segment(Refunding(s, x.id, Some(canister), env), Done(Ok(Failure(message))))
  {
    var r := s.records[x.id];
    var s1 := s.(records := s.records[x.id := Advanced(r, mid, canister, env.now)]);
    FailRefundsOnce(s1, x, Some(canister), message, env);
    StatusOverwritten(r, mid, canister, env.now);
    assert s1.records[x.id := RefundedRecord(r, Some(canister), env.now)] ==
           s.records[x.id := RefundedRecord(r, Some(canister), env.now)];
  }

  // ---------- Machine-level transformers ----------

  function SetRecord(m: Machine, id: string, r: DeploymentRecord): Machine {
    m.(s := m.s.(records := m.s.records[id := r]))
  }

  function RefundIn(m: Machine, id: string, canister: Option<Principal>, caller: Principal): Machine
    requires id in m.s.records
  {
    m.(s := Refunding(m.s, id, canister, EnvOf(m, caller)),
       h := m.h.(handled := Bump(m.h.handled, id, 1)))
  }

  function AddCanister(m: Machine, canister: Principal): Machine {
    m.(h := m.h.(canisters := m.h.canisters + {canister}))
  }

  function IndexStrategy(m: Machine, x: Execution, canister: Principal): Machine {
    m.(s := m.s.(index := StoreStrategyMetadata(m.s.index,
                                                StrategyMetadata(canister, x.record.strategyType, x.record.owner, m.now))))
  }

  /** The fee is taken and an id issued. */
  function PayFee(m: Machine, caller: Principal): Machine
    requires GetUserAccount(m.s.books, caller).balance >= m.s.fee
  {
    m.(s := m.s.(books := Post(m.s.books, caller, m.s.fee, DeploymentFee, FeeForStrategy, EnvOf(m, caller)),
                 idCounter := WrapAdd64(m.s.idCounter, 1)),
       h := m.h.(issued := m.h.issued + 1))
  }

  function NewId(m: Machine, caller: Principal): string { Ids.DeploymentId(m.now, caller, m.s.idCounter) }

  /** The record is stored and its first execution begins. */
  function CreateRecord(m: Machine, id: string, caller: Principal, fee: u64): Machine {
    CountStart(m.(s := m.s.(records := m.s.records[id := NewRecord(id, SelfHedging, caller, fee, m.now)]),
                  h := m.h.(created := m.h.created + [id])), id)
  }

  ghost predicate FeesPositive(m: Machine) {
    forall id :: id in m.s.records ==> m.s.records[id].feeAmount >= 1
  }

  predicate Accepted(m: Machine, caller: Principal, request: Request) {
    && request.valid && request.strategyType.SelfHedging?
    && m.s.fee >= 1 && GetUserAccount(m.s.books, caller).balance >= m.s.fee
  }

  /** A request is charged only when it is valid, for the self-hedging strategy, with a positive
      fee the balance covers. */
  lemma RequestCases(m: Machine, caller: Principal, request: Request, cycles: nat)
    ensures var m' := DoRequest(m, caller, request, cycles);
            if !Accepted(m, caller, request) then m' == m
            else if !request.encodes then
              m' == PayFee(m, caller).(h := PayFee(m, caller).h.(orphaned := Bump(m.h.orphaned, caller, m.s.fee)))
            else
              var id := NewId(m, caller);
              var c := CreateRecord(PayFee(m, caller), id, caller, m.s.fee);
              if cycles < CREATION_CYCLES then m' == RefundIn(c, id, None, caller)
              else m' == Suspend(c, CreateCall(Execution(id, c.s.records[id], true, caller)))
  {
    var env := EnvOf(m, caller);
    if Accepted(m, caller, request) {
      assert ProcessBalancePayment(m.s.books, caller, m.s.fee, env) ==
             Ok(Post(m.s.books, caller, m.s.fee, DeploymentFee, FeeForStrategy, env));
      if request.encodes {
        var id := NewId(m, caller);
        var c := CreateRecord(PayFee(m, caller), id, caller, m.s.fee);
        if cycles < CREATION_CYCLES {
          FailRefundsOnce(c.s, Execution(id, c.s.records[id], true, caller), None, CanisterCreationFailed, env);
        }
      }
    }
  }

  lemma ForceCases(m: Machine, admin: Principal, id: string, cycles: nat)
    requires FeesPositive(m)
    ensures var m' := DoForce(m, admin, id, cycles);
            if id !in m.s.records then m' == m
            else if cycles < CREATION_CYCLES then m' == RefundIn(CountStart(m, id), id, None, admin)
            else m' == Suspend(CountStart(m, id), CreateCall(Execution(id, m.s.records[id], false, admin)))
  {
    if id in m.s.records && cycles < CREATION_CYCLES {
      FailRefundsOnce(m.s, Execution(id, m.s.records[id], false, admin), None, CanisterCreationFailed, EnvOf(m, admin));
    }
  }

  lemma CreateAnsweredCases(m: Machine, task: nat, created: Option<Principal>)
    requires task in m.tasks && m.tasks[task].CreateCall? && FeesPositive(m)
    requires m.tasks[task].x.record.strategyType.SelfHedging?
    ensures var m' := DoCreateAnswered(m, task, created);
            var x := m.tasks[task].x;
            var m1 := Resume(m, task);
            match created
            case None => m' == if x.id in m.s.records then RefundIn(m1, x.id, None, x.caller) else m1
            case Some(cid) =>
              var m2 := AddCanister(m1, cid);
              m' == if x.id in m.s.records
                    then Suspend(SetRecord(m2, x.id, Advanced(m.s.records[x.id], CanisterCreated, cid, m.now)), InstallCall(x, cid))
                    else m2
  {
    var x := m.tasks[task].x;
    if created.None? {
      if x.id in m.s.records {
        FailRefundsOnce(m.s, x, None, CanisterCreationFailed, EnvOf(m, x.caller));
      } else {
        FailWithoutRecord(m.s, x, None, CanisterCreationFailed, EnvOf(m, x.caller));
      }
    }
  }

  lemma InstallAnsweredCases(m: Machine, task: nat, installed: bool, decodes: bool)
    requires task in m.tasks && m.tasks[task].InstallCall? && FeesPositive(m)
    ensures var m' := DoInstallAnswered(m, task, installed, decodes);
            var x := m.tasks[task].x;
            var cid := m.tasks[task].canister;
            var m1 := Resume(m, task);
            if x.id !in m.s.records then m' == m1
            else if installed && decodes then
              m' == Suspend(SetRecord(m1, x.id, Advanced(m.s.records[x.id], CodeInstalled, cid, m.now)), InitCall(x, cid))
            else m' == RefundIn(m1, x.id, Some(cid), x.caller)
  {
    var x := m.tasks[task].x;
    var cid := m.tasks[task].canister;
    var env := EnvOf(m, x.caller);
    if x.id in m.s.records {
      if !installed {
        FailRefundsOnce(m.s, x, Some(cid), CodeInstallationFailed, env);
      } else if !decodes {
        AdvanceThenFail(m.s, x, CodeInstalled, cid, InitializationFailed, env);
      }
    } else {
      FailWithoutRecord(m.s, x, Some(cid), CodeInstallationFailed, env);
    }
  }

  lemma InitAnsweredCases(m: Machine, task: nat, initialized: bool, decodes: bool)
    requires task in m.tasks && m.tasks[task].InitCall? && FeesPositive(m)
    ensures var m' := DoInitAnswered(m, task, initialized, decodes);
            var x := m.tasks[task].x;
            var cid := m.tasks[task].canister;
            var m1 := Resume(m, task);
            if x.id !in m.s.records then m' == m1
            else if initialized && decodes then
              m' == IndexStrategy(SetRecord(m1, x.id, Advanced(m.s.records[x.id], Deployed, cid, m.now)), x, cid)
            else m' == RefundIn(m1, x.id, Some(cid), x.caller)
  {
    var x := m.tasks[task].x;
    var cid := m.tasks[task].canister;
    var env := EnvOf(m, x.caller);
    if x.id in m.s.records {
      if !initialized {
        FailRefundsOnce(m.s, x, Some(cid), InitializationFailed, env);
      } else if !decodes {
        AdvanceThenFail(m.s, x, Initialized, cid, MetadataError, env);
      } else {
        var r := m.s.records[x.id];
        StatusOverwritten(r, Initialized, cid, env.now);
        var rs := m.s.records[x.id := Advanced(r, Initialized, cid, env.now)];
        assert rs[x.id := Advanced(r, Deployed, cid, env.now)] == m.s.records[x.id := Advanced(r, Deployed, cid, env.now)];
      }
    } else {
      FailWithoutRecord(m.s, x, Some(cid), InitializationFailed, env);
    }
  }

  /** Ledger answers and administrative grants are one posting each, or nothing. */
  lemma AdjustCases(m: Machine, e: Event)
    requires e.Adjust?
    ensures DoAdjust(m, e) ==
            m.(s := m.s.(books := Post(m.s.books, e.user, e.amount, AdminAdjustment, Reason(e.reason), EnvOf(m, e.admin))),
               h := m.h.(adjusted := Bump(m.h.adjusted, e.user, e.amount)))
  {
  }

  lemma EndDepositCases(m: Machine, task: nat, paid: bool)
    requires task in m.tasks && m.tasks[task].DepositCall?
    ensures var t := m.tasks[task];
            var m1 := Resume(m, task);
            DoEndDeposit(m, task, paid) ==
            if !paid then m1
            else m1.(s := m1.s.(books := Post(m.s.books, t.user, t.amount, Deposit, DepositOf(t.amount), EnvOf(m, t.user))),
                     h := m1.h.(paidIn := Bump(m.h.paidIn, t.user, t.amount)))
  {
  }

  lemma EndWithdrawalCases(m: Machine, task: nat, paid: bool)
    requires task in m.tasks && m.tasks[task].WithdrawCall?
    ensures var t := m.tasks[task];
            var m1 := Resume(m, task);
            DoEndWithdrawal(m, task, paid) ==
            if !paid then m1
            else if GetUserAccount(m.s.books, t.user).balance >= t.amount then
              m1.(s := m1.s.(books := Post(m.s.books, t.user, t.amount, Withdrawal, WithdrawalOf(t.amount), EnvOf(m, t.user))),
                  h := m1.h.(paidOut := Bump(m.h.paidOut, t.user, t.amount)))
            else
              m1.(h := m1.h.(paidOut := Bump(m.h.paidOut, t.user, t.amount),
                             undebited := Bump(m.h.undebited, t.user, t.amount)))
  {
  }

  ghost predicate Sweepable(rs: Records, id: string) {
    id in rs && rs[id].status.DeploymentFailed? && rs[id].feeAmount >= 1
  }

  /** Whatever its records, one sweep credits every failed deployment with a fee exactly once. */
  lemma {:induction false} SweepCreditsEachFailed(b: Books, rs: Records, order: seq<string>, env: Env, id: string)
    requires Distinct(order) && forall i :: i in rs ==> rs[i].deploymentId == i
    ensures RefundCount(SweepRecords(b, FailedRecords(rs, order), env).0.log, id) ==
            RefundCount(b.log, id) + (if id in order && Sweepable(rs, id) then 1 else 0)
  {
    if order != [] {
      hide RefundCount, Distinct;
      var front, last := order[..|order| - 1], order[|order| - 1];
      DistinctFront(order);
      SweepCreditsEachFailed(b, rs, front, env, id);
      var failed := FailedRecords(rs, front);
      if last in rs && rs[last].status.DeploymentFailed? {
        var r := rs[last];
        assert FailedRecords(rs, order) == failed + [r];
        assert (failed + [r])[..|failed + [r]| - 1] == failed && (failed + [r])[|failed|] == r;
        SweepOne(SweepRecords(b, failed, env).0, r, env, id);
      } else {
        assert FailedRecords(rs, order) == failed + [] == failed;
      }
    }
  }

  lemma DistinctFront(order: seq<string>)
    requires Distinct(order) && order != []
    ensures Distinct(order[..|order| - 1]) && order[|order| - 1] !in order[..|order| - 1]
    ensures forall id :: id in order <==> id in order[..|order| - 1] || id == order[|order| - 1]
  {
    assert order == order[..|order| - 1] + [order[|order| - 1]];
  }

  lemma SweepOne(b: Books, r: DeploymentRecord, env: Env, id: string)
    ensures var p := ProcessSweepRefund(b, r.owner, r.feeAmount, r.deploymentId, env);
            && (p.Ok? <==> r.feeAmount >= 1)
            && (p.Ok? ==> RefundCount(p.value.log, id) == RefundCount(b.log, id) + (if r.deploymentId == id then 1 else 0))
  {
    if r.feeAmount >= 1 {
      var t := TransactionRecord(TransactionId(env), r.owner, r.feeAmount, Refund, env.now, RefundForDeployment(r.deploymentId));
      AppendToLog(b.log, t, r.owner);
    }
  }

  /** The sweep leaves a failed record failed: it is paid again by every further sweep. That the
      fee goes back only once therefore rests on no record staying failed. */
  lemma SweepPaysAgain(s: State, order: seq<string>, env: Env, env': Env, id: string)
    requires Enumerates(order, s.records) && (forall i :: i in s.records ==> s.records[i].deploymentId == i)
    requires Sweepable(s.records, id)
    ensures var s' := ExecuteCleanupTasks(ExecuteCleanupTasks(s, false, order, env), false, order, env');
            s'.records == s.records && RefundCount(s'.books.log, id) == RefundCount(s.books.log, id) + 2
  {
    hide RefundCount, SweepRecords, FailedRecords;
    SweepCreditsEachFailed(s.books, s.records, order, env, id);
    SweepCreditsEachFailed(ExecuteCleanupTasks(s, false, order, env).books, s.records, order, env', id);
  }

  /** When nothing is marked failed the sweep credits nobody. */
  lemma {:induction false} NothingToSweep(rs: Records, order: seq<string>)
    requires forall id :: id in rs ==> !rs[id].status.DeploymentFailed?
    ensures FailedRecords(rs, order) == []
  {
    if order != [] {
      NothingToSweep(rs, order[..|order| - 1]);
    }
  }

  /** What a cleanup removes: nothing unless it is asked to archive; then the oldest completed records,
      as many as exceed ten thousand or are older than ninety days, so that neither is left. */
  ghost predicate CleansUp(rs: Records, shouldArchive: bool, order: seq<string>, now: u64, gone: set<string>) {
    if !shouldArchive then gone == {}
    else
      && gone <= CompletedIn(rs)
      && |gone| == Max(Surplus(|CompletedIn(rs)|), |TooOld(rs, now)|)
      && Oldest(rs, order, gone)
      && |CompletedIn(rs - gone)| <= 10_000
      && TooOld(rs - gone, now) == {}
  }

  /** A cleanup of a factory without failed records archives exactly that and posts nothing. */
  lemma CleanupCases(m: Machine, shouldArchive: bool, order: seq<string>) returns (gone: set<string>)
    requires Enumerates(order, m.s.records)
    requires forall id :: id in m.s.records ==> !m.s.records[id].status.DeploymentFailed?
    ensures gone <= CompletedIn(m.s.records) && CleansUp(m.s.records, shouldArchive, order, m.now, gone)
    ensures DoCleanup(m, shouldArchive, order) ==
            m.(s := m.s.(records := m.s.records - gone),
               h := m.h.(archived := m.h.archived + (map id | id in gone :: m.s.records[id])))
  {
    if shouldArchive {
      gone := ArchiveCorrect(m.s.records, order, m.now);
    } else {
      gone := {};
    }
    var rs := m.s.records - gone;
    assert rs == ExecuteCleanupTasks(m.s, shouldArchive, order, EnvOf(m, m.self)).records;
    NothingToSweep(rs, order);
    assert m.s.records.Keys - rs.Keys == gone;
  }
}
