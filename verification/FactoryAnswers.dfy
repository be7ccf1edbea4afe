/** What the factory answers and which calls get through: every outcome with its cause, every limit
    written out, and the runs that succeed. */
module FactoryAnswers {
  import opened Common
  import opened Ledger
  import opened Deployments
  import opened Factory
  import opened FactoryMachine
  import opened FactorySegments
  import opened FactoryInvariant
  import opened FactoryConservation
  import opened FactoryTrace
  import opened FactoryView
  import opened FactoryIndex
  import Ids

  function BalanceIn(s: State, u: Principal): u64 { GetUserAccount(s.books, u).balance }

  // ---------- A request ----------

  /** A paid deployment, asked for by `caller` just now. */
  predicate FreshRecord(r: DeploymentRecord, id: string, caller: Principal, fee: u64, now: u64) {
    && r.deploymentId == id && r.strategyType.SelfHedging? && r.owner == caller && r.feeAmount == fee
    && r.requestTime == now && r.lastUpdated == now && r.canisterId.None?
  }

  /** The request was accepted under `id`: that is the one new record, and its task waits for its
      canister unless cycles are short; then the fee is back already. */
  ghost predicate AcceptedAs(m: Machine, g: RequestSegment, id: string, caller: Principal, cycles: nat) {
    && id !in m.s.records && id !in m.h.archived
    && g.state.records.Keys == m.s.records.Keys + {id}
    && (forall other :: other in m.s.records ==> g.state.records[other] == m.s.records[other])
    && FreshRecord(g.state.records[id], id, caller, m.s.fee, m.now)
    && if cycles >= 100_000_000_000 then
         && g.state.records[id].status.PaymentReceived? && g.state.records[id].errorMessage.None?
         && g.next == Some(CreateCall(Execution(id, g.state.records[id], true, caller)))
         && BalanceIn(g.state, caller) == BalanceIn(m.s, caller) - m.s.fee
       else
         && g.state.records[id].status.Refunded? && g.next.None?
         && BalanceIn(g.state, caller) == BalanceIn(m.s, caller)
  }

  /** The answer to a request, with every error named by its cause. */
  lemma RequestAnswers(m: Machine, caller: Principal, request: Request, cycles: nat)
    requires Inv(m) && m.h.issued < TWO_64
    ensures var g := CreateStrategyRequest(m.s, request, cycles, EnvOf(m, caller));
            var charged := request.valid && request.strategyType.SelfHedging? && 1 <= m.s.fee <= BalanceIn(m.s, caller);
            && (g.answer.Ok? <==> charged && request.encodes)
            && (g.answer.Ok? ==> AcceptedAs(m, g, g.answer.value, caller, cycles))
            && (g.answer.Err? ==> g.next.None? && g.state.records == m.s.records)
            && (g.answer.Err? && charged ==> g.answer == Err(ConfigError) && BalanceIn(g.state, caller) == BalanceIn(m.s, caller) - m.s.fee)
            && (g.answer.Err? && !charged ==>
                  && g.state == m.s
                  && g.answer.error == if !request.valid then ConfigError
                                       else if !request.strategyType.SelfHedging? then NoModule
                                       else if m.s.fee == 0 then PaymentFailed(InvalidAmount)
                                       else PaymentFailed(InsufficientBalance))
  {
    if !Accepted(m, caller, request) {
      RequestRefused(m, caller, request, cycles);
    } else {
      OwnedByUser(m, caller);
      if request.encodes {
        RequestAccepted(m, caller, request, cycles);
      } else {
        RequestOrphaned(m, caller, request, cycles);
      }
    }
    hide CreateStrategyRequest, Inv, AcceptedAs;
  }

  lemma RequestRefused(m: Machine, caller: Principal, request: Request, cycles: nat)
    requires !Accepted(m, caller, request)
    ensures CreateStrategyRequest(m.s, request, cycles, EnvOf(m, caller)) ==
            RequestSegment(m.s, None, Err(if !request.valid then ConfigError
                                          else if !request.strategyType.SelfHedging? then NoModule
                                          else if m.s.fee == 0 then PaymentFailed(InvalidAmount)
                                          else PaymentFailed(InsufficientBalance)))
  {
  }

  lemma RequestOrphaned(m: Machine, caller: Principal, request: Request, cycles: nat)
    requires Accepted(m, caller, request) && !request.encodes && GetUserAccount(m.s.books, caller).owner == caller
    ensures var g := CreateStrategyRequest(m.s, request, cycles, EnvOf(m, caller));
            && g.answer == Err(ConfigError) && g.next.None? && g.state.records == m.s.records
            && BalanceIn(g.state, caller) == BalanceIn(m.s, caller) - m.s.fee
  {
    hide Ids.DeploymentId;
  }

  lemma RequestAccepted(m: Machine, caller: Principal, request: Request, cycles: nat)
    requires Inv(m) && m.h.issued < TWO_64 && Accepted(m, caller, request) && request.encodes
    requires GetUserAccount(m.s.books, caller).owner == caller
    ensures var g := CreateStrategyRequest(m.s, request, cycles, EnvOf(m, caller));
            g.answer.Ok? && AcceptedAs(m, g, g.answer.value, caller, cycles)
  {
    hide CreateStrategyRequest, Inv, Created, NewId;
    NewIdIsNew(m, caller);
    CreationAnswer(m, caller, request, cycles);
    AfterCreation(m, caller, cycles < CREATION_CYCLES);
  }

  lemma OwnedByUser(m: Machine, u: Principal)
    requires Inv(m)
    ensures GetUserAccount(m.s.books, u).owner == u
  {
    hide IdsOk, RecordsOk, TasksOk, ExternalOk, FeesOk, RefundSumsOk, CountsOk, ExecutionsOk;
    assert GetUserAccount(m.s.books, u) == Replay(m.s.books.log, u);
  }

  lemma BalanceAfterFee(m: Machine, u: Principal)
    requires GetUserAccount(m.s.books, u).balance >= m.s.fee && GetUserAccount(m.s.books, u).owner == u
    ensures var b := Post(m.s.books, u, m.s.fee, DeploymentFee, FeeForStrategy, EnvOf(m, u));
            GetUserAccount(b, u).balance == GetUserAccount(m.s.books, u).balance - m.s.fee
  {
  }

  lemma CreationAnswer(m: Machine, caller: Principal, request: Request, cycles: nat)
    requires Accepted(m, caller, request) && request.encodes
    ensures var g := CreateStrategyRequest(m.s, request, cycles, EnvOf(m, caller));
            var c := Created(m, caller, cycles < CREATION_CYCLES);
            var id := NewId(m, caller);
            && g.answer == Ok(id) && g.state == c.s
            && g.next == (if cycles < CREATION_CYCLES then None
                          else Some(CreateCall(Execution(id, NewRecord(id, SelfHedging, caller, m.s.fee, m.now), true, caller))))
  {
    assert ProcessBalancePayment(m.s.books, caller, m.s.fee, EnvOf(m, caller)) ==
           Ok(Post(m.s.books, caller, m.s.fee, DeploymentFee, FeeForStrategy, EnvOf(m, caller)));
    hide Post, Ids.DeploymentId, ProcessBalancePayment;
    var id := NewId(m, caller);
    var c := CreateRecord(PayFee(m, caller), id, caller, m.s.fee);
    if cycles < CREATION_CYCLES {
      FailRefundsOnce(c.s, Execution(id, c.s.records[id], true, caller), None, CanisterCreationFailed, EnvOf(m, caller));
    }
  }

  lemma AfterCreation(m: Machine, caller: Principal, short: bool)
    requires Inv(m) && GetUserAccount(m.s.books, caller).balance >= m.s.fee && GetUserAccount(m.s.books, caller).owner == caller
    ensures var id := NewId(m, caller);
            var s := Created(m, caller, short).s;
            var r := NewRecord(id, SelfHedging, caller, m.s.fee, m.now);
            && s.records == m.s.records[id := if short then RefundedRecord(r, None, m.now) else r]
            && BalanceIn(s, caller) == BalanceIn(m.s, caller) - (if short then 0 else m.s.fee)
  {
    CreatedParts(m, caller, short);
    hide Inv;
    BalanceAfterFee(m, caller);
  }

  // ---------- An execution ----------

  /** The record a segment leaves behind says what the segment answers: deployed with its canister
      indexed, refunded, or still under way; an error means there is no record and nothing changed. */
  ghost predicate AnswersTruly(s: State, x: Execution, g: Segment) {
    match g.progress
    case Waiting(task) => IsExecution(task) && task.x == x && x.id in g.state.records && !Completed(g.state.records[x.id])
    case Done(Ok(Success(cid))) =>
      && x.id in g.state.records && g.state.records[x.id].status.Deployed? && g.state.records[x.id].canisterId == Some(cid)
      && cid in g.state.index.strategies && g.state.index.strategies[cid].owner == x.record.owner
    case Done(Ok(Failure(_))) => x.id in g.state.records && g.state.records[x.id].status.Refunded?
    case Done(Err(_)) => x.id !in s.records && g.state == s
  }

  /** The causes of every answer, for a stored record. */
  lemma ExecutionAnswers(s: State, x: Execution, cycles: nat, created: Option<Principal>, cid: Principal, ok: bool, decodes: bool, env: Env)
    requires x.id in s.records && s.records[x.id].feeAmount >= 1
    ensures ExecuteDeployment(s, x.id, x.spawned, cycles, env).progress ==
            (if cycles < 100_000_000_000 then Done(Ok(Failure(CanisterCreationFailed)))
             else Waiting(CreateCall(Execution(x.id, s.records[x.id], x.spawned, env.caller))))
    ensures AfterCreate(s, x, created, env).progress ==
            (if created.None? then Done(Ok(Failure(CanisterCreationFailed)))
             else if !x.record.strategyType.SelfHedging? then Done(Ok(Failure(ModuleNotFound)))
             else Waiting(InstallCall(x, created.value)))
    ensures AfterInstall(s, x, cid, ok, decodes, env).progress ==
            (if !ok then Done(Ok(Failure(CodeInstallationFailed)))
             else if !decodes then Done(Ok(Failure(InitializationFailed)))
             else Waiting(InitCall(x, cid)))
    ensures AfterInit(s, x, cid, ok, decodes, env).progress ==
            (if !ok then Done(Ok(Failure(InitializationFailed)))
             else if !decodes then Done(Ok(Failure(MetadataError)))
             else Done(Ok(Success(cid))))
  {
    var y := Execution(x.id, s.records[x.id], x.spawned, env.caller);
    FailRefundsOnce(s, y, None, CanisterCreationFailed, env);
    FailRefundsOnce(s, x, None, CanisterCreationFailed, env);
    FailRefundsOnce(s, x, Some(cid), CodeInstallationFailed, env);
    FailRefundsOnce(s, x, Some(cid), InitializationFailed, env);
    if created.Some? {
      AdvanceThenFail(s, x, CanisterCreated, created.value, ModuleNotFound, env);
    }
    AdvanceThenFail(s, x, CodeInstalled, cid, InitializationFailed, env);
    AdvanceThenFail(s, x, Initialized, cid, MetadataError, env);
    hide Fail;
  }

  lemma FailsTruly(s: State, x: Execution, canister: Option<Principal>, message: Message, env: Env)
    requires forall id :: id in s.records ==> s.records[id].feeAmount >= 1
    ensures AnswersTruly(s, x, Fail(s, x, canister, message, env))
  {
    if x.id in s.records {
      FailRefundsOnce(s, x, canister, message, env);
    } else {
      FailWithoutRecord(s, x, canister, message, env);
    }
  }

  lemma FailsLaterTruly(s: State, x: Execution, mid: DeploymentStatus, canister: Principal, message: Message, env: Env)
    requires x.id in s.records && s.records[x.id].feeAmount >= 1
    ensures var s1 := s.(records := s.records[x.id := Advanced(s.records[x.id], mid, canister, env.now)]);
            AnswersTruly(s, x, Fail(s1, x, Some(canister), message, env))
  {
    AdvanceThenFail(s, x, mid, canister, message, env);
  }

  /** Every segment of an execution answers truly. */
  lemma EveryAnswerIsTrue(s: State, x: Execution, created: Option<Principal>, cid: Principal, ok: bool, decodes: bool, env: Env)
    requires forall id :: id in s.records ==> s.records[id].feeAmount >= 1
    ensures AnswersTruly(s, x, AfterCreate(s, x, created, env))
    ensures AnswersTruly(s, x, AfterInstall(s, x, cid, ok, decodes, env))
    ensures AnswersTruly(s, x, AfterInit(s, x, cid, ok, decodes, env))
  {
    CreateIsTrue(s, x, created, env);
    InstallIsTrue(s, x, cid, ok, decodes, env);
    InitIsTrue(s, x, cid, ok, decodes, env);
  }

  lemma CreateIsTrue(s: State, x: Execution, created: Option<Principal>, env: Env)
    requires forall id :: id in s.records ==> s.records[id].feeAmount >= 1
    ensures AnswersTruly(s, x, AfterCreate(s, x, created, env))
  {
    hide Fail;
    FailsTruly(s, x, None, CanisterCreationFailed, env);
    if x.id in s.records && created.Some? {
      FailsLaterTruly(s, x, CanisterCreated, created.value, ModuleNotFound, env);
    }
  }

  lemma InstallIsTrue(s: State, x: Execution, cid: Principal, ok: bool, decodes: bool, env: Env)
    requires forall id :: id in s.records ==> s.records[id].feeAmount >= 1
    ensures AnswersTruly(s, x, AfterInstall(s, x, cid, ok, decodes, env))
  {
    hide Fail;
    FailsTruly(s, x, Some(cid), CodeInstallationFailed, env);
    if x.id in s.records {
      FailsLaterTruly(s, x, CodeInstalled, cid, InitializationFailed, env);
    }
  }

  lemma InitIsTrue(s: State, x: Execution, cid: Principal, ok: bool, decodes: bool, env: Env)
    requires forall id :: id in s.records ==> s.records[id].feeAmount >= 1
    ensures AnswersTruly(s, x, AfterInit(s, x, cid, ok, decodes, env))
  {
    hide Fail;
    FailsTruly(s, x, Some(cid), InitializationFailed, env);
    if x.id in s.records {
      FailsLaterTruly(s, x, Initialized, cid, MetadataError, env);
    }
  }

  /** The error arm itself, which no run reaches: a spawned task that saw an error would refund a stored
      record, a forced execution would not. */
  lemma ErrorArmRefunds(s: State, x: Execution, e: DeploymentError, env: Env)
    requires x.id in s.records && s.records[x.id].feeAmount >= 1
    ensures Conclude(s, x, Err(e), env).state == if x.spawned then FactorySegments.Refunding(s, x.id, None, env) else s
  {
    var r := s.records[x.id];
    assert WithStatus(r, Refunded, None, Some(FeeRefunded), env.now) == RefundedRecord(r, None, env.now);
  }

  // ---------- Deployments that succeed ----------

  /** Whatever canister it is given, a task whose calls all succeed deploys its stored record and enters
      the strategy in the table, without touching anybody's money. */
  lemma DeploymentSucceeds(m: Machine, t: nat, cid: Principal)
    requires Inv(m) && t in m.tasks && m.tasks[t].CreateCall? && m.tasks[t].x.id in m.s.records
    ensures var x := m.tasks[t].x;
            var m' := Step(Step(Step(m, CreateAnswered(t, Some(cid))), InstallAnswered(m.nextTask, true, true)),
                           InitAnswered(m.nextTask + 1, true, true));
            && m'.s.records == m.s.records[x.id := Advanced(m.s.records[x.id], Deployed, cid, m.now)]
            && m'.s.records[x.id].status.Deployed? && m'.s.records[x.id].canisterId == Some(cid)
            && cid in m'.s.index.strategies
            && m'.s.index.strategies[cid] == StrategyMetadata(cid, SelfHedging, m.s.records[x.id].owner, m.now)
            && m'.s.books == m.s.books
  {
    hide Step, Inv;
    InvOfTask(m, t);
    CreateSucceeds(m, t, cid);
    var m1 := Step(m, CreateAnswered(t, Some(cid)));
    InstallSucceeds(m1, m.nextTask);
    InitSucceeds(Step(m1, InstallAnswered(m.nextTask, true, true)), m.nextTask + 1);
  }

  lemma CreateSucceeds(m: Machine, t: nat, cid: Principal)
    requires Inv(m) && t in m.tasks && m.tasks[t].CreateCall? && m.tasks[t].x.id in m.s.records
    ensures var x := m.tasks[t].x;
            var m' := Step(m, CreateAnswered(t, Some(cid)));
            && Inv(m') && m'.now == m.now && m'.nextTask == m.nextTask + 1
            && m.nextTask in m'.tasks && m'.tasks[m.nextTask] == InstallCall(x, cid)
            && m'.s == m.s.(records := m.s.records[x.id := Advanced(m.s.records[x.id], CanisterCreated, cid, m.now)])
  {
    hide Inv, DoCreateAnswered, FeesPositive;
    FactsInside(m);
    CreateAnsweredCases(m, t, Some(cid));
    InvAfterCreateAnswered(m, t, Some(cid));
  }

  lemma InstallSucceeds(m: Machine, t: nat)
    requires Inv(m) && t in m.tasks && m.tasks[t].InstallCall? && m.tasks[t].x.id in m.s.records
    ensures var x, cid := m.tasks[t].x, m.tasks[t].canister;
            var m' := Step(m, InstallAnswered(t, true, true));
            && Inv(m') && m'.now == m.now && m'.nextTask == m.nextTask + 1
            && m.nextTask in m'.tasks && m'.tasks[m.nextTask] == InitCall(x, cid)
            && m'.s == m.s.(records := m.s.records[x.id := Advanced(m.s.records[x.id], CodeInstalled, cid, m.now)])
  {
    hide Inv, DoInstallAnswered, FeesPositive;
    FactsInside(m);
    InstallAnsweredCases(m, t, true, true);
    InvAfterInstallAnswered(m, t, true, true);
  }

  lemma InitSucceeds(m: Machine, t: nat)
    requires Inv(m) && t in m.tasks && m.tasks[t].InitCall? && m.tasks[t].x.id in m.s.records
    ensures var x, cid := m.tasks[t].x, m.tasks[t].canister;
            var m' := Step(m, InitAnswered(t, true, true));
            && m'.s.books == m.s.books
            && m'.s.records == m.s.records[x.id := Advanced(m.s.records[x.id], Deployed, cid, m.now)]
            && cid in m'.s.index.strategies
            && m'.s.index.strategies[cid] == StrategyMetadata(cid, x.record.strategyType, x.record.owner, m.now)
  {
    hide Inv, DoInitAnswered, FeesPositive;
    FactsInside(m);
    InitAnsweredCases(m, t, true, true);
  }

  lemma InvOfTask(m: Machine, t: nat)
    requires Inv(m) && t in m.tasks && IsExecution(m.tasks[t]) && m.tasks[t].x.id in m.s.records
    ensures var x := m.tasks[t].x; x.record.owner == m.s.records[x.id].owner && x.record.strategyType.SelfHedging?
  {
    hide BooksMatchLog, IdsOk, RecordsOk, ExternalOk, FeesOk, RefundSumsOk, CountsOk, ExecutionsOk;
    assert ExecutionOk(m.tasks[t].x, All(m));
  }

  // ---------- Deposits, withdrawals and the fee ----------

  /** What becomes of a deposit or withdrawal once the ledger answered. */
  lemma LedgerAnswers(b: Books, user: Principal, amount: u64, paid: bool, env: Env)
    ensures FinishDeposit(b, user, amount, paid, env) ==
            if paid then Ok(Post(b, user, amount, Deposit, DepositOf(amount), env)) else Err(TransferFailed)
    ensures FinishWithdrawal(b, user, amount, paid, env) ==
            if !paid then Err(TransferFailed)
            else if GetUserAccount(b, user).balance < amount then Err(SystemError)
            else Ok(Post(b, user, amount, Withdrawal, WithdrawalOf(amount), env))
  {
  }

  /** A refund is refused for nothing; else it is one posting, and marks the record if there is one. */
  lemma RefundIsOnePosting(s: State, user: Principal, amount: u64, id: string, env: Env)
    ensures var r := ProcessBalanceRefund(s, user, amount, id, env);
            if amount == 0 then r == Err(InvalidAmount)
            else
              && r.Ok?
              && r.value == s.(books := Post(s.books, user, amount, Refund, RefundForDeployment(id), env), records := r.value.records)
              && r.value.records.Keys == s.records.Keys
              && (forall other :: other in s.records && other != id ==> r.value.records[other] == s.records[other])
              && (id in s.records ==> r.value.records[id].status.Refunded?)
  {
  }

  /** Which deposits reach the ledger, and why others do not. */
  lemma DepositBegins(m: Machine, user: Principal, amount: u64)
    ensures CheckDeposit(user, amount) ==
            (if amount < 1_000_000 || amount > 10_000_000_000 then Err(InvalidAmount)
             else if user == "2vxsx-fae" then Err(InvalidPrincipal) else Ok(()))
    ensures Step(m, BeginDeposit(user, amount)) ==
            if 1_000_000 <= amount <= 10_000_000_000 && user != "2vxsx-fae"
            then m.(tasks := m.tasks[m.nextTask := DepositCall(user, amount)], nextTask := m.nextTask + 1) else m
  {
  }

  /** Which withdrawals reach the ledger, and why others do not. */
  lemma WithdrawalBegins(m: Machine, user: Principal, amount: u64, cycles: nat)
    ensures CheckWithdrawal(m.s.books, user, amount, cycles) ==
            (if amount == 0 || amount > 10_000_000_000 then Err(InvalidAmount)
             else if user == "2vxsx-fae" then Err(InvalidPrincipal)
             else if BalanceIn(m.s, user) < amount then Err(InsufficientBalance)
             else if cycles < 1_000_000_000 then Err(SystemError) else Ok(()))
    ensures Step(m, BeginWithdrawal(user, amount, cycles)) ==
            if 1 <= amount <= 10_000_000_000 && user != "2vxsx-fae" && BalanceIn(m.s, user) >= amount && cycles >= 1_000_000_000
            then m.(tasks := m.tasks[m.nextTask := WithdrawCall(user, amount)], nextTask := m.nextTask + 1) else m
  {
  }

  /** One ICP at installation; later the fee set last, whatever happens in between. */
  lemma FeeIsTheOneSet(m: Machine, e: Event, now: u64, self: string)
    ensures Initial(now, self).s.fee == 100_000_000
    ensures Step(m, e).s.fee == if e.SetFee? then e.fee else m.s.fee
  {
    if !e.SetFee? {
      FeeKept(m, e);
    }
  }

  lemma FeeKept(m: Machine, e: Event)
    requires !e.SetFee?
    ensures Step(m, e).s.fee == m.s.fee
  {
    hide DoCreateAnswered, DoInstallAnswered, DoInitAnswered, DoForce, DoRequest, DoCleanup, DoUpgrade, DoEndDeposit, DoEndWithdrawal,
         Enumerates, CheckDeposit, CheckWithdrawal;
    match e
    case RequestStrategy(caller, request, cycles) => FeeAfterRequest(m, caller, request, cycles);
    case ForceExecute(admin, id, cycles) => FeeAfterForce(m, admin, id, cycles);
    case CreateAnswered(t, created) =>
      if t in m.tasks && m.tasks[t].CreateCall? { FeeAfterCreate(m, t, created); }
    case InstallAnswered(t, ok, decodes) =>
      if t in m.tasks && m.tasks[t].InstallCall? { FeeAfterInstall(m, t, ok, decodes); }
    case InitAnswered(t, ok, decodes) =>
      if t in m.tasks && m.tasks[t].InitCall? { FeeAfterInit(m, t, ok, decodes); }
    case EndDeposit(t, paid) => if t in m.tasks && m.tasks[t].DepositCall? { EndDepositCases(m, t, paid); }
    case EndWithdrawal(t, paid) => if t in m.tasks && m.tasks[t].WithdrawCall? { EndWithdrawalCases(m, t, paid); }
    case Cleanup(shouldArchive, order) => FeeAfterCleanup(m, shouldArchive, order);
    case UpgradeCanister => FeeAfterUpgrade(m);
    case _ =>
  }

  lemma FailKeepsFee(s: State, x: Execution, canister: Option<Principal>, message: Message, env: Env)
    ensures Fail(s, x, canister, message, env).state.fee == s.fee
  {
  }

  lemma FeeAfterRequest(m: Machine, caller: Principal, request: Request, cycles: nat)
    ensures DoRequest(m, caller, request, cycles).s.fee == m.s.fee
  {
    RequestCases(m, caller, request, cycles);
    hide DoRequest, Post, Ids.DeploymentId;
  }

  lemma FeeAfterForce(m: Machine, admin: Principal, id: string, cycles: nat)
    ensures DoForce(m, admin, id, cycles).s.fee == m.s.fee
  {
    if id in m.s.records {
      FailKeepsFee(m.s, Execution(id, m.s.records[id], false, admin), None, CanisterCreationFailed, EnvOf(m, admin));
      hide Fail;
    }
  }

  lemma FeeAfterCreate(m: Machine, t: nat, created: Option<Principal>)
    requires t in m.tasks && m.tasks[t].CreateCall?
    ensures DoCreateAnswered(m, t, created).s.fee == m.s.fee
  {
    var x := m.tasks[t].x;
    forall s, canister, message ensures Fail(s, x, canister, message, EnvOf(m, x.caller)).state.fee == s.fee {
      FailKeepsFee(s, x, canister, message, EnvOf(m, x.caller));
    }
    hide Fail;
  }

  lemma FeeAfterInstall(m: Machine, t: nat, ok: bool, decodes: bool)
    requires t in m.tasks && m.tasks[t].InstallCall?
    ensures DoInstallAnswered(m, t, ok, decodes).s.fee == m.s.fee
  {
    var x := m.tasks[t].x;
    forall s, canister, message ensures Fail(s, x, canister, message, EnvOf(m, x.caller)).state.fee == s.fee {
      FailKeepsFee(s, x, canister, message, EnvOf(m, x.caller));
    }
    hide Fail;
  }

  lemma FeeAfterInit(m: Machine, t: nat, ok: bool, decodes: bool)
    requires t in m.tasks && m.tasks[t].InitCall?
    ensures DoInitAnswered(m, t, ok, decodes).s.fee == m.s.fee
  {
    var x := m.tasks[t].x;
    forall s, canister, message ensures Fail(s, x, canister, message, EnvOf(m, x.caller)).state.fee == s.fee {
      FailKeepsFee(s, x, canister, message, EnvOf(m, x.caller));
    }
    hide Fail, StoreStrategyMetadata;
  }

  lemma FeeAfterCleanup(m: Machine, shouldArchive: bool, order: seq<string>)
    ensures DoCleanup(m, shouldArchive, order).s.fee == m.s.fee
  {
    hide ArchiveOldDeploymentRecords, SweepRecords, FailedRecords;
  }

  lemma FeeAfterUpgrade(m: Machine)
    ensures DoUpgrade(m).s.fee == m.s.fee
  {
    UpgradeRoundTrip(m.s);
  }

  // ---------- Sweep and index ----------

  /** One sweep reports how many failed records it paid, and each payment is one posting. */
  lemma {:induction false} SweepCounts(b: Books, rs: Records, order: seq<string>, env: Env)
    requires Distinct(order)
    ensures SweepRecords(b, FailedRecords(rs, order), env).1 == |set id | id in order && Sweepable(rs, id)|
  {
    var all := set id | id in order && Sweepable(rs, id);
    if order == [] {
      assert all == {};
    } else {
      var front, last := order[..|order| - 1], order[|order| - 1];
      DistinctFront(order);
      SweepCounts(b, rs, front, env);
      var failed := FailedRecords(rs, front);
      var paid := set id | id in front && Sweepable(rs, id);
      assert all == if Sweepable(rs, last) then paid + {last} else paid;
      if last in rs && rs[last].status.DeploymentFailed? {
        assert (failed + [rs[last]])[..|failed|] == failed;
      } else {
        assert failed + [] == failed;
      }
    }
  }

  lemma SweepIsOnePosting(b: Books, user: Principal, amount: u64, id: string, env: Env)
    ensures ProcessSweepRefund(b, user, amount, id, env) ==
            if amount == 0 then Err(InvalidAmount) else Ok(Post(b, user, amount, Refund, RefundForDeployment(id), env))
  {
  }

  lemma {:induction false} LookupUnchanged(a: map<Principal, StrategyMetadata>, c: Principal, md: StrategyMetadata, ids: seq<Principal>)
    requires c !in ids
    ensures Lookup(a[c := md], ids) == Lookup(a, ids)
  {
    if ids != [] {
      LookupUnchanged(a, c, md, ids[..|ids| - 1]);
      assert ids[|ids| - 1] in ids;
    }
  }

  /** A stored strategy comes last in its owner's answer; nobody else's answer changes. */
  lemma StoredLast(x: Index, md: StrategyMetadata, owner: Principal)
    requires IndexOk(x) && md.canisterId !in x.strategies
    ensures GetStrategiesByOwner(StoreStrategyMetadata(x, md), owner) ==
            GetStrategiesByOwner(x, owner) + (if owner == md.owner then [md] else [])
  {
    var ids := if owner in x.ownerStrategies then x.ownerStrategies[owner] else [];
    forall i | 0 <= i < |ids| ensures ids[i] != md.canisterId {
      assert FactoryIndex.Listed(x, owner, ids[i]);
    }
    LookupUnchanged(x.strategies, md.canisterId, md, ids);
    if owner == md.owner {
      assert (ids + [md.canisterId])[..|ids|] == ids;
    }
  }
}
