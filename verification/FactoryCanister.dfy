/** The factory canister in its own imperative form. Each method is proved to take the memory
    from its old value to the one the segment functions of module Factory specify. */
module FactoryCanister {
  import opened Common
  import L = Ledger
  import D = Deployments
  import F = Factory
  import Ids

  class Canister {
    var accounts: map<Principal, L.UserAccount>
    var transactions: map<string, L.TransactionRecord>
    var cache: seq<L.TransactionRecord>
    var records: D.Records
    var strategies: map<Principal, F.StrategyMetadata>
    var ownerStrategies: map<Principal, seq<Principal>>
    var idCounter: u64
    var fee: u64
    ghost var log: seq<L.TransactionRecord>

    ghost function Books(): L.Books
      reads this
    {
      L.Books(accounts, transactions, cache, log)
    }

    ghost function State(): F.State
      reads this
    {
      F.State(Books(), records, F.Index(strategies, ownerStrategies), idCounter, fee)
    }

    constructor ()
      ensures State() == F.State(L.Books(map[], map[], [], []), map[], F.Index(map[], map[]), 0, F.DEFAULT_DEPLOYMENT_FEE)
    {
      accounts, transactions, cache, log := map[], map[], [], [];
      records, strategies, ownerStrategies := map[], map[], map[];
      idCounter, fee := 0, F.DEFAULT_DEPLOYMENT_FEE;
    }

    // ---------- Accounts and transactions ----------

    method GetUserAccount(user: Principal) returns (a: L.UserAccount)
      ensures a == L.GetUserAccount(Books(), user)
    {
      if user in accounts {
        a := accounts[user];
      } else {
        a := L.UserAccount(user, 0, 0, 0, 0);
      }
    }

    method UpdateUserBalance(user: Principal, amount: u64, isDeposit: bool, now: u64) returns (r: Result<u64, ()>)
      modifies this`accounts
      ensures match L.UpdateUserBalance(old(Books()), user, amount, isDeposit, now)
              case Ok(b) => Books() == b && r == Ok(accounts[user].balance)
              case Err(_) => Books() == old(Books()) && r == Err(())
    {
      var account := GetUserAccount(user);
      if isDeposit {
        account := account.(balance := SatAdd64(account.balance, amount));
        account := account.(lastDeposit := now);
        account := account.(totalDeposited := SatAdd64(account.totalDeposited, amount));
      } else {
        if account.balance < amount {
          return Err(());
        }
        account := account.(balance := SatSub64(account.balance, amount));
        account := account.(totalConsumed := SatAdd64(account.totalConsumed, amount));
      }
      accounts := accounts[user := account];
      return Ok(account.balance);
    }

    method StoreTransactionRecord(record: L.TransactionRecord)
      modifies this`transactions, this`cache, this`log
      ensures Books() == L.StoreTransactionRecord(old(Books()), record)
    {
      transactions := transactions[record.transactionId := record];
      cache := cache + [record];
      if |cache| > L.MAX_CACHE_SIZE {
        cache := cache[1..];
      }
      log := log + [record];
    }

    method RecordTransaction(user: Principal, amount: u64, kind: L.TransactionType, description: L.Description, env: L.Env)
      returns (id: string)
      modifies this`transactions, this`cache, this`log
      ensures id == L.TransactionId(env)
      ensures Books() == L.RecordTransaction(old(Books()), user, amount, kind, description, env)
    {
      id := L.TransactionId(env);
      StoreTransactionRecord(L.TransactionRecord(id, user, amount, kind, env.now, description));
    }

    method ProcessBalancePayment(user: Principal, amount: u64, env: L.Env) returns (r: Result<(), F.PaymentError>)
      modifies this`accounts, this`transactions, this`cache, this`log
      ensures match F.ProcessBalancePayment(old(Books()), user, amount, env)
              case Ok(b) => Books() == b && r == Ok(())
              case Err(e) => Books() == old(Books()) && r == Err(e)
    {
      if amount == 0 {
        return Err(F.InvalidAmount);
      }
      var account := GetUserAccount(user);
      if account.balance < amount {
        return Err(F.InsufficientBalance);
      }
      var updated := UpdateUserBalance(user, amount, false, env.now);
      if updated.Err? {
        return Err(F.SystemError);
      }
      var _ := RecordTransaction(user, amount, L.DeploymentFee, L.FeeForStrategy, env);
      return Ok(());
    }

    method ProcessBalanceRefund(user: Principal, amount: u64, id: string, env: L.Env) returns (r: Result<(), F.PaymentError>)
      modifies this`accounts, this`transactions, this`cache, this`log, this`records
      ensures match F.ProcessBalanceRefund(old(State()), user, amount, id, env)
              case Ok(s) => State() == s && r == Ok(())
              case Err(e) => State() == old(State()) && r == Err(e)
    {
      if amount == 0 {
        return Err(F.InvalidAmount);
      }
      var updated := UpdateUserBalance(user, amount, true, env.now);
      if updated.Err? {
        return Err(F.SystemError);
      }
      var _ := RecordTransaction(user, amount, L.Refund, L.RefundForDeployment(id), env);
      var _ := UpdateDeploymentStatus(id, D.Refunded, None, Some(D.FeeRefunded), env.now);
      return Ok(());
    }

    method FinishDeposit(user: Principal, amount: u64, paid: bool, env: L.Env) returns (r: Result<u64, F.PaymentError>)
      modifies this`accounts, this`transactions, this`cache, this`log
      ensures match F.FinishDeposit(old(Books()), user, amount, paid, env)
              case Ok(b) => Books() == b && r == Ok(L.GetUserAccount(b, user).balance)
              case Err(e) => Books() == old(Books()) && r == Err(e)
    {
      if !paid {
        return Err(F.TransferFailed);
      }
      var updated := UpdateUserBalance(user, amount, true, env.now);
      if updated.Err? {
        return Err(F.SystemError);
      }
      var _ := RecordTransaction(user, amount, L.Deposit, L.DepositOf(amount), env);
      return Ok(updated.value);
    }

    method CheckWithdrawal(user: Principal, amount: u64, cycles: nat) returns (r: Result<(), F.PaymentError>)
      ensures r == F.CheckWithdrawal(Books(), user, amount, cycles)
    {
      if amount == 0 || amount > F.MAX_DEPOSIT_AMOUNT {
        return Err(F.InvalidAmount);
      }
      if user == ANONYMOUS {
        return Err(F.InvalidPrincipal);
      }
      var account := GetUserAccount(user);
      if account.balance < amount {
        return Err(F.InsufficientBalance);
      }
      if cycles < F.MIN_CYCLES_BALANCE {
        return Err(F.SystemError);
      }
      return Ok(());
    }

    method FinishWithdrawal(user: Principal, amount: u64, paid: bool, env: L.Env) returns (r: Result<u64, F.PaymentError>)
      modifies this`accounts, this`transactions, this`cache, this`log
      ensures match F.FinishWithdrawal(old(Books()), user, amount, paid, env)
              case Ok(b) => Books() == b && r == Ok(L.GetUserAccount(b, user).balance)
              case Err(e) => Books() == old(Books()) && r == Err(e)
    {
      if !paid {
        return Err(F.TransferFailed);
      }
      var updated := UpdateUserBalance(user, amount, false, env.now);
      if updated.Err? {
        return Err(F.SystemError);
      }
      var _ := RecordTransaction(user, amount, L.Withdrawal, L.WithdrawalOf(amount), env);
      return Ok(updated.value);
    }

    method AdjustBalance(user: Principal, amount: u64, reason: string, env: L.Env)
      modifies this`accounts, this`transactions, this`cache, this`log
      ensures Books() == F.AdjustBalance(old(Books()), user, amount, reason, env)
    {
      var updated := UpdateUserBalance(user, amount, true, env.now);
      if updated.Ok? {
        var _ := RecordTransaction(user, amount, L.AdminAdjustment, L.Reason(reason), env);
      }
    }

    // ---------- Records and strategies ----------

    method UpdateDeploymentStatus(id: string, status: D.DeploymentStatus, canisterId: Option<Principal>,
                                  errorMessage: Option<D.Message>, now: u64) returns (r: Result<(), ()>)
      modifies this`records
      ensures match D.UpdateDeploymentStatus(old(records), id, status, canisterId, errorMessage, now)
              case Ok(rs) => records == rs && r == Ok(())
              case Err(_) => records == old(records) && r == Err(())
    {
      if id !in records {
        return Err(());
      }
      var record := records[id];
      record := record.(status := status, lastUpdated := now);
      if canisterId.Some? {
        record := record.(canisterId := canisterId);
      }
      if errorMessage.Some? {
        record := record.(errorMessage := errorMessage);
      }
      records := records[id := record];
      return Ok(());
    }

    method StoreStrategyMetadata(md: F.StrategyMetadata)
      modifies this`strategies, this`ownerStrategies
      ensures F.Index(strategies, ownerStrategies) ==
              F.StoreStrategyMetadata(old(F.Index(strategies, ownerStrategies)), md)
    {
      strategies := strategies[md.canisterId := md];
      if md.owner !in ownerStrategies {
        ownerStrategies := ownerStrategies[md.owner := []];
      }
      ownerStrategies := ownerStrategies[md.owner := ownerStrategies[md.owner] + [md.canisterId]];
    }

    /** `order` is the iteration order of the stable map. */
    method ArchiveOldDeploymentRecords(order: seq<string>, now: u64) returns (archivedCount: nat)
      modifies this`records
      ensures (records, archivedCount) == D.ArchiveOldDeploymentRecords(old(records), order, now)
    {
      ghost var was := records;
      var completed := [];
      for i := 0 to |order|
        invariant completed == D.CompletedIds(records, order[..i])
      {
        assert order[..i + 1][..i] == order[..i];
        if order[i] in records && D.Completed(records[order[i]]) {
          completed := completed + [order[i]];
        }
      }
      assert order[..|order|] == order;
      var sorted := D.SortByTime(records, completed);
      var excess := if |sorted| > D.MAX_COMPLETED_RECORDS then |sorted| - D.MAX_COMPLETED_RECORDS else 0;
      var threshold := SatSub64(now, D.RETENTION_PERIOD_NS);
      var toArchive := [];
      for i := 0 to |sorted|
        invariant toArchive == D.Selected(records, sorted, i, excess, threshold)
      {
        if i < excess || D.Updated(records, sorted[i]) < threshold {
          toArchive := toArchive + [sorted[i]];
        }
      }
      archivedCount := 0;
      for i := 0 to |toArchive|
        invariant (records, archivedCount) == D.RemoveAll(was, toArchive[..i])
      {
        assert toArchive[..i + 1][..i] == toArchive[..i];
        if toArchive[i] in records {
          records := records - {toArchive[i]};
          archivedCount := archivedCount + 1;
        }
      }
      assert toArchive[..|toArchive|] == toArchive;
    }

    // ---------- Deployment segments ----------

    method HandleDeploymentFailure(id: string, canister: Option<Principal>, message: D.Message, env: L.Env)
      returns (r: Result<F.DeploymentResult, F.DeploymentError>)
      modifies this`accounts, this`transactions, this`cache, this`log, this`records
      ensures (State(), r) == F.HandleDeploymentFailure(old(State()), id, canister, message, env)
    {
      var updated := UpdateDeploymentStatus(id, D.DeploymentFailed, canister, Some(message), env.now);
      if updated.Err? {
        return Err(F.SystemFailure);
      }
      var record := records[id];
      var _ := ProcessBalanceRefund(record.owner, record.feeAmount, id, env);
      return Ok(F.Failure(message));
    }

    /** The error arm of the spawned task. */
    method Conclude(x: F.Execution, result: Result<F.DeploymentResult, F.DeploymentError>, env: L.Env) returns (p: F.Progress)
      modifies this`accounts, this`transactions, this`cache, this`log, this`records
      ensures F.Segment(State(), p) == F.Conclude(old(State()), x, result, env)
    {
      if result.Err? && x.spawned && x.id in records {
        var record := records[x.id];
        var _ := ProcessBalanceRefund(record.owner, record.feeAmount, x.id, env);
      }
      return F.Done(result);
    }

    method Fail(x: F.Execution, canister: Option<Principal>, message: D.Message, env: L.Env) returns (p: F.Progress)
      modifies this`accounts, this`transactions, this`cache, this`log, this`records
      ensures F.Segment(State(), p) == F.Fail(old(State()), x, canister, message, env)
    {
      var result := HandleDeploymentFailure(x.id, canister, message, env);
      p := Conclude(x, result, env);
    }

    method ExecuteDeployment(id: string, spawned: bool, cycles: nat, env: L.Env) returns (p: F.Progress)
      modifies this`accounts, this`transactions, this`cache, this`log, this`records
      ensures F.Segment(State(), p) == F.ExecuteDeployment(old(State()), id, spawned, cycles, env)
    {
      if id !in records {
        return F.Done(Err(F.RecordNotFound));
      }
      var x := F.Execution(id, records[id], spawned, env.caller);
      if cycles < F.CREATION_CYCLES {
        p := Fail(x, None, D.CanisterCreationFailed, env);
      } else {
        p := F.Waiting(F.CreateCall(x));
      }
    }

    method AfterCreate(x: F.Execution, created: Option<Principal>, env: L.Env) returns (p: F.Progress)
      modifies this`accounts, this`transactions, this`cache, this`log, this`records
      ensures F.Segment(State(), p) == F.AfterCreate(old(State()), x, created, env)
    {
      if created.None? {
        p := Fail(x, None, D.CanisterCreationFailed, env);
        return;
      }
      var updated := UpdateDeploymentStatus(x.id, D.CanisterCreated, created, None, env.now);
      if updated.Err? {
        p := Conclude(x, Err(F.SystemFailure), env);
      } else if !x.record.strategyType.SelfHedging? {
        p := Fail(x, created, D.ModuleNotFound, env);
      } else {
        p := F.Waiting(F.InstallCall(x, created.value));
      }
    }

    method AfterInstall(x: F.Execution, cid: Principal, installed: bool, decodes: bool, env: L.Env) returns (p: F.Progress)
      modifies this`accounts, this`transactions, this`cache, this`log, this`records
      ensures F.Segment(State(), p) == F.AfterInstall(old(State()), x, cid, installed, decodes, env)
    {
      if !installed {
        p := Fail(x, Some(cid), D.CodeInstallationFailed, env);
        return;
      }
      var updated := UpdateDeploymentStatus(x.id, D.CodeInstalled, Some(cid), None, env.now);
      if updated.Err? {
        p := Conclude(x, Err(F.SystemFailure), env);
      } else if !decodes {
        p := Fail(x, Some(cid), D.InitializationFailed, env);
      } else {
        p := F.Waiting(F.InitCall(x, cid));
      }
    }

    method AfterInit(x: F.Execution, cid: Principal, initialized: bool, decodes: bool, env: L.Env) returns (p: F.Progress)
      modifies this
      ensures F.Segment(State(), p) == F.AfterInit(old(State()), x, cid, initialized, decodes, env)
    {
      if !initialized {
        p := Fail(x, Some(cid), D.InitializationFailed, env);
        return;
      }
      var updated := UpdateDeploymentStatus(x.id, D.Initialized, Some(cid), None, env.now);
      if updated.Err? {
        p := Conclude(x, Err(F.SystemFailure), env);
        return;
      }
      if !decodes {
        p := Fail(x, Some(cid), D.MetadataError, env);
        return;
      }
      StoreStrategyMetadata(F.StrategyMetadata(cid, x.record.strategyType, x.record.owner, env.now));
      // The record was found in this very segment, so this update cannot fail.
      updated := UpdateDeploymentStatus(x.id, D.Deployed, Some(cid), None, env.now);
      p := F.Done(Ok(F.Success(cid)));
    }

    method GenerateDeploymentId(env: L.Env) returns (id: string)
      modifies this`idCounter
      ensures id == Ids.DeploymentId(env.now, env.caller, old(idCounter))
      ensures idCounter == WrapAdd64(old(idCounter), 1)
    {
      var current := idCounter;
      idCounter := WrapAdd64(current, 1);
      id := Ids.DeploymentId(env.now, env.caller, current);
    }

    method CreateStrategyRequest(request: F.Request, cycles: nat, env: L.Env)
      returns (next: Option<F.Task>, answer: Result<string, F.RequestError>)
      modifies this
      ensures F.RequestSegment(State(), next, answer) == F.CreateStrategyRequest(old(State()), request, cycles, env)
    {
      var owner := env.caller;
      var amount := fee;
      if !request.valid {
        return None, Err(F.ConfigError);
      }
      if !request.strategyType.SelfHedging? {
        return None, Err(F.NoModule);
      }
      var paid := ProcessBalancePayment(owner, amount, env);
      if paid.Err? {
        return None, Err(F.PaymentFailed(paid.error));
      }
      var id := GenerateDeploymentId(env);
      if !request.encodes {
        return None, Err(F.ConfigError);
      }
      records := records[id := F.NewRecord(id, request.strategyType, owner, amount, env.now)];
      var p := ExecuteDeployment(id, true, cycles, env);
      return if p.Waiting? then Some(p.task) else None, Ok(id);
    }

    // ---------- Maintenance ----------

    method ProcessSweepRefund(user: Principal, amount: u64, id: string, env: L.Env) returns (r: Result<(), F.PaymentError>)
      modifies this`accounts, this`transactions, this`cache, this`log
      ensures match F.ProcessSweepRefund(old(Books()), user, amount, id, env)
              case Ok(b) => Books() == b && r == Ok(())
              case Err(e) => Books() == old(Books()) && r == Err(e)
    {
      if amount == 0 {
        return Err(F.InvalidAmount);
      }
      var updated := UpdateUserBalance(user, amount, true, env.now);
      if updated.Err? {
        return Err(F.SystemError);
      }
      var _ := RecordTransaction(user, amount, L.Refund, L.RefundForDeployment(id), env);
      return Ok(());
    }

    method ProcessFailedDeployments(order: seq<string>, env: L.Env) returns (processed: nat)
      modifies this`accounts, this`transactions, this`cache, this`log
      ensures (Books(), processed) == F.SweepRecords(old(Books()), F.FailedRecords(records, order), env)
    {
      ghost var was := Books();
      var failed := F.FailedRecords(records, order);
      processed := 0;
      for i := 0 to |failed|
        invariant (Books(), processed) == F.SweepRecords(was, failed[..i], env)
      {
        assert failed[..i + 1][..i] == failed[..i];
        var record := failed[i];
        var r := ProcessSweepRefund(record.owner, record.feeAmount, record.deploymentId, env);
        if r.Ok? {
          processed := processed + 1;
        }
      }
      assert failed[..|failed|] == failed;
    }

    method ExecuteCleanupTasks(shouldArchive: bool, order: seq<string>, env: L.Env)
      modifies this`accounts, this`transactions, this`cache, this`log, this`records
      ensures State() == F.ExecuteCleanupTasks(old(State()), shouldArchive, order, env)
    {
      if shouldArchive {
        var _ := ArchiveOldDeploymentRecords(order, env.now);
      }
      var _ := ProcessFailedDeployments(order, env);
    }

    /** Saving the heap, losing it and restoring it. */
    method Upgrade()
      modifies this
      ensures State() == F.Upgrade(old(State()))
    {
      var saved := F.UpgradeData(ownerStrategies, idCounter, fee, transactions, accounts, strategies);
      cache, ownerStrategies, idCounter, fee := [], map[], 0, F.DEFAULT_DEPLOYMENT_FEE;
      ownerStrategies, idCounter, fee := saved.ownerStrategies, saved.idCounter, saved.fee;
      transactions := transactions + saved.transactions;
      accounts := accounts + saved.accounts;
      strategies := strategies + saved.strategies;
    }
  }
}
