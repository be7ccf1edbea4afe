/** What holds on every run of the factory: money is conserved, refunds are handled
    executions, deployment ids never repeat, and the ledger, the cache and the transaction
    map agree with the history of postings. */
module FactoryConservation {
  import opened Common
  import opened Ledger
  import opened Deployments
  import opened Factory
  import opened FactoryMachine
  import opened FactorySegments
  import opened FactoryInvariant
  import Ids

  lemma InitialInv(now: u64, self: string)
    ensures Inv(Initial(now, self))
  {
    forall id ensures InFlight(map[], id) == {} {
    }
  }

  lemma AnswersKeepIssued(m: Machine, task: nat, created: Option<Principal>, ok: bool, decodes: bool)
    requires task in m.tasks && IsExecution(m.tasks[task])
    ensures m.tasks[task].CreateCall? ==> DoCreateAnswered(m, task, created).h.issued == m.h.issued
    ensures m.tasks[task].InstallCall? ==> DoInstallAnswered(m, task, ok, decodes).h.issued == m.h.issued
    ensures m.tasks[task].InitCall? ==> DoInitAnswered(m, task, ok, decodes).h.issued == m.h.issued
  {
    hide AfterCreate, AfterInstall, AfterInit;
  }

  lemma LedgerStepsKeepIssued(m: Machine, task: nat, paid: bool)
    requires task in m.tasks
    ensures m.tasks[task].DepositCall? ==> DoEndDeposit(m, task, paid).h.issued == m.h.issued
    ensures m.tasks[task].WithdrawCall? ==> DoEndWithdrawal(m, task, paid).h.issued == m.h.issued
  {
    hide FinishDeposit, FinishWithdrawal;
  }

  lemma ForceKeepsIssued(m: Machine, admin: Principal, id: string, cycles: nat)
    ensures DoForce(m, admin, id, cycles).h.issued == m.h.issued
  {
    hide ExecuteDeployment;
  }

  lemma RequestIssues(m: Machine, caller: Principal, request: Request, cycles: nat)
    ensures m.h.issued <= DoRequest(m, caller, request, cycles).h.issued
  {
    hide DoRequest, Post, Ids.DeploymentId;
    RequestCases(m, caller, request, cycles);
  }

  lemma MaintenanceKeepsIssued(m: Machine, shouldArchive: bool, order: seq<string>)
    ensures DoCleanup(m, shouldArchive, order).h.issued == m.h.issued && DoUpgrade(m).h.issued == m.h.issued
  {
    hide ExecuteCleanupTasks, Upgrade;
  }

  /** Only requests issue ids. */
  lemma IssuedGrows(m: Machine, e: Event)
    ensures m.h.issued <= Step(m, e).h.issued
  {
    hide DoCreateAnswered, DoInstallAnswered, DoInitAnswered, DoEndDeposit, DoEndWithdrawal, DoForce, DoRequest, DoCleanup, DoUpgrade,
         Enumerates, CheckDeposit, CheckWithdrawal, AdjustBalance;
    match e
    case RequestStrategy(caller, request, cycles) => RequestIssues(m, caller, request, cycles);
    case ForceExecute(admin, id, cycles) => ForceKeepsIssued(m, admin, id, cycles);
    case CreateAnswered(task, created) =>
      if task in m.tasks && IsExecution(m.tasks[task]) { AnswersKeepIssued(m, task, created, true, true); }
    case InstallAnswered(task, ok, decodes) =>
      if task in m.tasks && IsExecution(m.tasks[task]) { AnswersKeepIssued(m, task, None, ok, decodes); }
    case InitAnswered(task, ok, decodes) =>
      if task in m.tasks && IsExecution(m.tasks[task]) { AnswersKeepIssued(m, task, None, ok, decodes); }
    case EndDeposit(task, paid) => if task in m.tasks { LedgerStepsKeepIssued(m, task, paid); }
    case EndWithdrawal(task, paid) => if task in m.tasks { LedgerStepsKeepIssued(m, task, paid); }
    case Cleanup(shouldArchive, order) => MaintenanceKeepsIssued(m, shouldArchive, order);
    case UpgradeCanister => MaintenanceKeepsIssued(m, false, []);
    case _ =>
  }

  lemma YieldPointBefore(r: Run, k: nat)
    requires YieldPoint(r, k) && k > 0
    ensures YieldPoint(r, k - 1) && r.states[k] == Step(r.states[k - 1], r.events[k - 1])
  {
    hide Step;
    var e := r.events[k - 1];
    IssuedGrows(r.states[k - 1], e);
  }

  /** The invariant holds at every yield point of every run. */
  lemma {:induction false} InvOnEveryRun(r: Run, k: nat)
    requires YieldPoint(r, k)
    ensures Inv(r.states[k])
  {
    hide Inv, Step;
    if k == 0 {
      var now, self :| r.states[0] == Initial(now, self);
      InitialInv(now, self);
    } else {
      YieldPointBefore(r, k);
      InvOnEveryRun(r, k - 1);
      InvAfterStep(r.states[k - 1], r.events[k - 1]);
    }
  }

  function Balance(m: Machine, u: Principal): nat { GetUserAccount(m.s.books, u).balance }

  /** Conservation, for every user and every run whatsoever: what is held, was lost to a
      saturated balance, was paid out, was charged for deployments or for requests without a
      record, equals what was paid in, granted, given back and paid out without a debit. */
  lemma Conservation(r: Run, k: nat, u: Principal)
    requires YieldPoint(r, k)
    ensures var m := r.states[k];
            Balance(m, u) + Clipped(m.s.books.log, u) + At(m.h.paidOut, u) + CreatedFees(m.h.created, All(m), u) + At(m.h.orphaned, u)
            == At(m.h.paidIn, u) + At(m.h.adjusted, u) + RefundedFees(m.h.created, All(m), m.h.handled, u) + At(m.h.undebited, u)
  {
    InvOnEveryRun(r, k);
    ConservationAt(r.states[k], u);
  }

  lemma ConservationAt(m: Machine, u: Principal)
    requires Inv(m)
    ensures Balance(m, u) + Clipped(m.s.books.log, u) + At(m.h.paidOut, u) + CreatedFees(m.h.created, All(m), u) + At(m.h.orphaned, u)
            == At(m.h.paidIn, u) + At(m.h.adjusted, u) + RefundedFees(m.h.created, All(m), m.h.handled, u) + At(m.h.undebited, u)
  {
    hide IdsOk, RecordsOk, TasksOk, CountsOk, ExecutionsOk;
    assert GetUserAccount(m.s.books, u) == Replay(m.s.books.log, u);
    ReplayAccounting(m.s.books.log, u);
  }

  /** Nothing is lost to saturation while a user's lifetime credits fit 64 bits. */
  lemma NothingClipped(r: Run, k: nat, u: Principal)
    requires YieldPoint(r, k)
    requires Credits(r.states[k].s.books.log, u) <= U64_MAX
    ensures Clipped(r.states[k].s.books.log, u) == 0
  {
    InvOnEveryRun(r, k);
    ReplayAccounting(r.states[k].s.books.log, u);
  }

  /** At every yield point the accounts are the replay of the log, no debit was uncovered, the
      transaction map holds the last record of each id and the cache the newest thousand. */
  lemma LedgerOnEveryRun(r: Run, k: nat, u: Principal)
    requires YieldPoint(r, k)
    ensures var m := r.states[k];
            && GetUserAccount(m.s.books, u) == Replay(m.s.books.log, u)
            && Funded(m.s.books.log)
            && m.s.books.transactions == LastById(m.s.books.log)
            && m.h.cacheBase <= |m.s.books.log|
            && m.s.books.cache == LastN(m.s.books.log[m.h.cacheBase..], 1000)
            && (Credits(m.s.books.log, u) <= U64_MAX ==>
                  var a := GetUserAccount(m.s.books, u); a.balance + a.totalConsumed == a.totalDeposited)
  {
    InvOnEveryRun(r, k);
    var m := r.states[k];
    assert GetUserAccount(m.s.books, u) == Replay(m.s.books.log, u);
    if Credits(m.s.books.log, u) <= U64_MAX {
      LedgerReplay(m.s.books, m.h.cacheBase, u);
    }
  }

  /** At every yield point: when exactly a user's balance and totals agree. */
  lemma TotalsOnEveryRun(r: Run, k: nat, u: Principal)
    requires YieldPoint(r, k)
    ensures var b := r.states[k].s.books;
            TotalsAgree(GetUserAccount(b, u)) <==>
            if Debits(b.log, u) <= U64_MAX then Clipped(b.log, u) == Max(0, Credits(b.log, u) - U64_MAX)
            else GetUserAccount(b, u).balance == 0
  {
    InvOnEveryRun(r, k);
    var b := r.states[k].s.books;
    assert GetUserAccount(b, u) == Replay(b.log, u);
    TotalsAgreeExactly(b.log, u);
  }

  /** A grant of the maximum, a withdrawal of one and a grant of one: nothing is clipped, and
      balance and totals disagree. */
  lemma TotalsCanDisagree(now: u64, self: string, u: Principal, cycles: nat) returns (r: Run)
    requires u != ANONYMOUS && cycles >= MIN_CYCLES_BALANCE
    ensures YieldPoint(r, 4)
    ensures var b := r.states[4].s.books;
            && GetUserAccount(b, u) == UserAccount(u, U64_MAX, now, U64_MAX, 1)
            && !TotalsAgree(GetUserAccount(b, u)) && Clipped(b.log, u) == 0 && Credits(b.log, u) == U64_MAX + 1
  {
    hide Step, Post;
    var m0 := Initial(now, self);
    var es := [Adjust(u, U64_MAX, "", u), BeginWithdrawal(u, 1, cycles), EndWithdrawal(0, true), Adjust(u, 1, "", u)];
    var m1 := Step(m0, es[0]);
    var m2 := Step(m1, es[1]);
    var m3 := Step(m2, es[2]);
    var m4 := Step(m3, es[3]);
    r := Run(es, [m0, m1, m2, m3, m4]);
    GrantStep(m0, u, U64_MAX);
    WithdrawStep(m1, u, cycles);
    GrantStep(m3, u, 1);
    TotalsOf(m4, r, u);
  }

  lemma WithdrawStep(m: Machine, u: Principal, cycles: nat)
    requires u != ANONYMOUS && cycles >= MIN_CYCLES_BALANCE && GetUserAccount(m.s.books, u).balance >= 1 && m.nextTask == 0
    requires GetUserAccount(m.s.books, u).owner == u
    ensures var m1 := Step(m, BeginWithdrawal(u, 1, cycles));
            var m' := Step(m1, EndWithdrawal(0, true));
            var a := GetUserAccount(m.s.books, u);
            && m1.h == m.h
            && GetUserAccount(m'.s.books, u) == a.(balance := a.balance - 1, totalConsumed := SatAdd64(a.totalConsumed, 1))
            && m'.now == m.now && m'.h == m.h.(paidOut := Bump(m.h.paidOut, u, 1))
  {
    hide Post, DoEndWithdrawal;
    var m1 := Step(m, BeginWithdrawal(u, 1, cycles));
    assert m1 == Suspend(m, WithdrawCall(u, 1));
    EndWithdrawalCases(m1, 0, true);
    PostAccount(m.s.books, u, u, 1, Withdrawal, WithdrawalOf(1), EnvOf(m1, u));
  }

  lemma GrantStep(m: Machine, u: Principal, amount: u64)
    ensures var m' := Step(m, Adjust(u, amount, "", u));
            var a := GetUserAccount(m.s.books, u);
            && GetUserAccount(m'.s.books, u) ==
               a.(balance := SatAdd64(a.balance, amount), lastDeposit := m.now, totalDeposited := SatAdd64(a.totalDeposited, amount))
            && m' == m.(s := m.s.(books := m'.s.books), h := m.h.(adjusted := Bump(m.h.adjusted, u, amount)))
  {
  }

  lemma TotalsOf(m: Machine, r: Run, u: Principal)
    requires YieldPoint(r, 4) && m == r.states[4] && GetUserAccount(m.s.books, u).totalConsumed == 1
    requires At(m.h.adjusted, u) == U64_MAX + 1 && At(m.h.paidIn, u) == 0 && At(m.h.paidOut, u) == 1 && At(m.h.undebited, u) == 0
    requires At(m.h.orphaned, u) == 0 && m.h.created == [] && GetUserAccount(m.s.books, u).balance == U64_MAX
    ensures Clipped(m.s.books.log, u) == 0 && Credits(m.s.books.log, u) == U64_MAX + 1
  {
    InvOnEveryRun(r, 4);
    ConservationAt(m, u);
    hide IdsOk, RecordsOk, TasksOk, CountsOk, ExecutionsOk, BooksMatchLog;
    assert KindSum(m.s.books.log, u, Refund) == 0;
  }

  /** Refunds credited for a deployment are exactly its executions that entered the failure
      handler while its record was stored; with those still suspended they never exceed the
      executions begun. This holds with forced executions and archiving interleaved. */
  lemma RefundsAreHandledExecutions(r: Run, k: nat, id: string)
    requires YieldPoint(r, k)
    ensures var m := r.states[k];
            && RefundCount(m.s.books.log, id) == At(m.h.handled, id)
            && At(m.h.handled, id) + |InFlight(m.tasks, id)| <= At(m.h.started, id)
  {
    InvOnEveryRun(r, k);
  }

  /** No record is marked failed or merely initialized at a yield point, every fee is positive,
      and a cleanup therefore credits nobody and leaves every surviving record as it was. */
  lemma SweepCreditsNothing(r: Run, k: nat, shouldArchive: bool, order: seq<string>)
    requires YieldPoint(r, k)
    ensures var m := r.states[k];
            && (forall id :: id in m.s.records ==> m.s.records[id].feeAmount >= 1 && Restful(m.s.records[id].status))
            && var m' := Step(m, Cleanup(shouldArchive, order));
            && m'.s.books == m.s.books
            && m'.s.records.Keys <= m.s.records.Keys
            && (forall id :: id in m.s.records ==>
                  if id in m'.s.records then m'.s.records[id] == m.s.records[id] else Completed(m.s.records[id]))
  {
    InvOnEveryRun(r, k);
    SweepCreditsNothingAt(r.states[k], shouldArchive, order);
  }

  lemma SweepCreditsNothingAt(m: Machine, shouldArchive: bool, order: seq<string>)
    requires Inv(m)
    ensures forall id :: id in m.s.records ==> m.s.records[id].feeAmount >= 1 && Restful(m.s.records[id].status)
    ensures var m' := Step(m, Cleanup(shouldArchive, order));
            && m'.s.books == m.s.books
            && m'.s.records.Keys <= m.s.records.Keys
            && (forall id :: id in m.s.records ==>
                  if id in m'.s.records then m'.s.records[id] == m.s.records[id] else Completed(m.s.records[id]))
  {
    hide BooksMatchLog, IdsOk, TasksOk, ExternalOk, FeesOk, RefundSumsOk, CountsOk, ExecutionsOk, DoCleanup;
    if Enumerates(order, m.s.records) {
      var gone := CleanupCases(m, shouldArchive, order);
    }
  }

  /** At every yield point a cleanup removes exactly the records it should and changes nothing else. */
  lemma CleanupArchives(r: Run, k: nat, shouldArchive: bool, order: seq<string>) returns (gone: set<string>)
    requires YieldPoint(r, k) && Enumerates(order, r.states[k].s.records)
    ensures var m := r.states[k];
            && CleansUp(m.s.records, shouldArchive, order, m.now, gone)
            && Step(m, Cleanup(shouldArchive, order)).s == m.s.(records := m.s.records - gone)
  {
    hide CleansUp, DoCleanup, Enumerates, IsRun;
    InvOnEveryRun(r, k);
    gone := CleanupCases(r.states[k], shouldArchive, order);
  }

  ghost predicate ErrsOnlyWithoutRecord(s: State, x: Execution, g: Segment) {
    && (g.progress.Done? && g.progress.result.Err? <==> x.id !in s.records)
    && (x.id !in s.records ==> g.state == s)
  }

  /** Any segment of an execution, the first included, ends in an error exactly if the record is
      gone, and then changes nothing: the refund of the error arm never happens. */
  lemma ErrorArmNeverRefunds(s: State, x: Execution, created: Option<Principal>, cid: Principal, ok: bool, decodes: bool,
                             cycles: nat, env: Env)
    requires forall id :: id in s.records ==> s.records[id].feeAmount >= 1
    ensures ErrsOnlyWithoutRecord(s, x, ExecuteDeployment(s, x.id, x.spawned, cycles, env))
    ensures ErrsOnlyWithoutRecord(s, x, AfterCreate(s, x, created, env))
    ensures ErrsOnlyWithoutRecord(s, x, AfterInstall(s, x, cid, ok, decodes, env))
    ensures ErrsOnlyWithoutRecord(s, x, AfterInit(s, x, cid, ok, decodes, env))
  {
    if x.id in s.records {
      forall message: Message, canister: Option<Principal> ensures Fail(s, x, canister, message, env).progress == Done(Ok(Failure(message))) {
        FailRefundsOnce(s, x, canister, message, env);
      }
      FailRefundsOnce(s, Execution(x.id, s.records[x.id], x.spawned, env.caller), None, CanisterCreationFailed, env);
      if created.Some? {
        AdvanceThenFail(s, x, CanisterCreated, created.value, ModuleNotFound, env);
      }
      AdvanceThenFail(s, x, CodeInstalled, cid, InitializationFailed, env);
      AdvanceThenFail(s, x, Initialized, cid, MetadataError, env);
    }
  }

  /** At every yield point of every run, for every suspended execution and every answer to it. */
  lemma ErrorArmOnEveryRun(r: Run, k: nat, t: nat, created: Option<Principal>, cid: Principal, ok: bool, decodes: bool, env: Env)
    requires YieldPoint(r, k) && t in r.states[k].tasks && IsExecution(r.states[k].tasks[t])
    ensures var s, x := r.states[k].s, r.states[k].tasks[t].x;
            && ErrsOnlyWithoutRecord(s, x, AfterCreate(s, x, created, env))
            && ErrsOnlyWithoutRecord(s, x, AfterInstall(s, x, cid, ok, decodes, env))
            && ErrsOnlyWithoutRecord(s, x, AfterInit(s, x, cid, ok, decodes, env))
  {
    hide AfterCreate, AfterInstall, AfterInit, ErrsOnlyWithoutRecord;
    InvOnEveryRun(r, k);
    ErrorArmNeverRefunds(r.states[k].s, r.states[k].tasks[t].x, created, cid, ok, decodes, 0, env);
  }

  /** Ids of stored deployments are pairwise different over a whole run, archived records and
      upgrades included, and the next request cannot overwrite a record. */
  lemma IdsNeverRepeat(r: Run, k: nat, caller: Principal)
    requires YieldPoint(r, k) && r.states[k].h.issued < TWO_64
    ensures var m := r.states[k];
            && Distinct(m.h.created)
            && SetOf(m.h.created) == m.s.records.Keys + m.h.archived.Keys
            && m.s.idCounter == m.h.issued
            && NewId(m, caller) !in m.h.created
            && NewId(m, caller) !in m.s.records && NewId(m, caller) !in m.h.archived
  {
    InvOnEveryRun(r, k);
    IdsNeverRepeatAt(r.states[k], caller);
  }

  lemma IdsNeverRepeatAt(m: Machine, caller: Principal)
    requires Inv(m) && m.h.issued < TWO_64
    ensures Distinct(m.h.created) && SetOf(m.h.created) == m.s.records.Keys + m.h.archived.Keys
    ensures m.s.idCounter == m.h.issued
    ensures var id := NewId(m, caller);
            id !in m.h.created && id !in m.s.records && id !in m.h.archived
  {
    hide BooksMatchLog, RecordsOk, TasksOk, ExternalOk, FeesOk, RefundSumsOk, CountsOk, ExecutionsOk, IssuedBelow;
    NewIdIsFresh(m, caller);
    assert NewId(m, caller) !in SetOf(m.h.created);
  }

  /** Nobody is charged for a strategy other than self-hedging, nor for an invalid request. */
  lemma OnlySelfHedgingIsCharged(m: Machine, caller: Principal, request: Request, cycles: nat)
    requires !request.strategyType.SelfHedging? || !request.valid
    ensures Step(m, RequestStrategy(caller, request, cycles)) == m
  {
    RequestCases(m, caller, request, cycles);
  }

  /** A forced execution of any stored deployment, even a refunded one, refunds it again when
      the factory is short of cycles; without a stored record it changes nothing. */
  lemma ForcedRefund(m: Machine, admin: Principal, id: string, cycles: nat)
    requires Inv(m) && cycles < CREATION_CYCLES
    ensures var m' := Step(m, ForceExecute(admin, id, cycles));
            && RefundCount(m'.s.books.log, id) == RefundCount(m.s.books.log, id) + (if id in m.s.records then 1 else 0)
            && (id !in m.s.records ==> m' == m)
  {
    hide BooksMatchLog, IdsOk, TasksOk, ExternalOk, FeesOk, RefundSumsOk, CountsOk, ExecutionsOk, DoForce, Post;
    ForceCases(m, admin, id, cycles);
    if id in m.s.records {
      var r := m.s.records[id];
      var env := EnvOf(m, admin);
      PostShape(m.s.books, r.owner, r.feeAmount, Refund, RefundForDeployment(id), env);
      AppendToLog(m.s.books.log, PostedRecord(r.owner, r.feeAmount, Refund, RefundForDeployment(id), env), r.owner);
    }
  }

  /** A confirmed withdrawal is debited exactly when the balance still covers it at that moment. */
  lemma WithdrawalDebited(m: Machine, task: nat)
    requires task in m.tasks && m.tasks[task].WithdrawCall?
    ensures var t := m.tasks[task];
            var m' := Step(m, EndWithdrawal(task, true));
            && At(m'.h.paidOut, t.user) == At(m.h.paidOut, t.user) + t.amount
            && (Balance(m, t.user) >= t.amount <==> m'.h.undebited == m.h.undebited)
            && Balance(m', t.user) == (if Balance(m, t.user) >= t.amount then Balance(m, t.user) - t.amount else Balance(m, t.user))
            && (Balance(m, t.user) < t.amount ==> m'.s == m.s && At(m'.h.undebited, t.user) == At(m.h.undebited, t.user) + t.amount)
  {
    var t := m.tasks[task];
    EndWithdrawalCases(m, task, true);
    if Balance(m, t.user) < t.amount {
      assert At(Bump(m.h.undebited, t.user, t.amount), t.user) != At(m.h.undebited, t.user);
    }
  }

  /** Two withdrawals checked against the same balance are both paid, the second one undebited
      whenever the balance does not cover both. */
  lemma DoubleWithdrawal(m: Machine, user: Principal, amount: u64, cycles: nat)
    requires CheckWithdrawal(m.s.books, user, amount, cycles).Ok?
    requires Balance(m, user) < 2 * amount && m.nextTask !in m.tasks && m.nextTask + 1 !in m.tasks
    ensures var begin := BeginWithdrawal(user, amount, cycles);
            var m' := Step(Step(Step(Step(m, begin), begin), EndWithdrawal(m.nextTask, true)), EndWithdrawal(m.nextTask + 1, true));
            && At(m'.h.paidOut, user) == At(m.h.paidOut, user) + 2 * amount
            && Balance(m', user) == Balance(m, user) - amount
            && At(m'.h.undebited, user) == At(m.h.undebited, user) + amount
  {
    hide DoEndWithdrawal, Post;
    var begin := BeginWithdrawal(user, amount, cycles);
    var end1, end2 := EndWithdrawal(m.nextTask, true), EndWithdrawal(m.nextTask + 1, true);
    var m1 := Suspend(m, WithdrawCall(user, amount));
    var m2 := Suspend(m1, WithdrawCall(user, amount));
    assert Step(m, begin) == m1;
    assert Step(m1, begin) == m2;
    var m3 := Step(m2, end1);
    WithdrawalDebited(m2, m.nextTask);
    EndWithdrawalCases(m2, m.nextTask, true);
    var m4 := Step(m3, end2);
    WithdrawalDebited(m3, m.nextTask + 1);
  }

  /** A request that fails before its first call books fee and refund under one transaction id:
      the stable transaction map loses the fee, the log and the cache keep both. */
  lemma FeeEntryOverwritten(m: Machine, caller: Principal, request: Request, cycles: nat)
    requires Accepted(m, caller, request) && request.encodes && cycles < CREATION_CYCLES
    ensures var m' := DoRequest(m, caller, request, cycles);
            exists fee, refund ::
              && m'.s.books.log == m.s.books.log + [fee, refund]
              && fee.transactionType == DeploymentFee && refund.transactionType == Refund
              && fee.amount == refund.amount == m.s.fee && fee.user == refund.user == caller
              && fee.transactionId == refund.transactionId
              && m'.s.books.transactions == m.s.books.transactions[fee.transactionId := refund]
  {
    RequestCases(m, caller, request, cycles);
    var env := EnvOf(m, caller);
    var id := NewId(m, caller);
    var b := Post(m.s.books, caller, m.s.fee, DeploymentFee, FeeForStrategy, env);
    PostShape(m.s.books, caller, m.s.fee, DeploymentFee, FeeForStrategy, env);
    PostShape(b, caller, m.s.fee, Refund, RefundForDeployment(id), env);
    var fee := PostedRecord(caller, m.s.fee, DeploymentFee, FeeForStrategy, env);
    var refund := PostedRecord(caller, m.s.fee, Refund, RefundForDeployment(id), env);
    var m' := DoRequest(m, caller, request, cycles);
    assert m'.s.books == Post(b, caller, m.s.fee, Refund, RefundForDeployment(id), env);
    assert m'.s.books.log == m.s.books.log + [fee, refund];
    assert m'.s.books.transactions == m.s.books.transactions[fee.transactionId := refund];
  }
}
