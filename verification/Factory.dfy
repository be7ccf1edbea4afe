/** The factory canister: what each message segment does to canister memory.

    Code between two inter-canister calls runs atomically, so every function here describes one
    segment; what the called canister answered is an argument. */
module Factory {
  import opened Common
  import opened Ledger
  import opened Deployments
  import Ids

  const DEFAULT_DEPLOYMENT_FEE: u64 := 100_000_000
  const MIN_DEPOSIT_AMOUNT: u64 := 1_000_000
  const MAX_DEPOSIT_AMOUNT: u64 := 10_000_000_000
  const MIN_CYCLES_BALANCE: nat := 1_000_000_000
  const CREATION_CYCLES: nat := 40_000_000_000 + 60_000_000_000

  /** Exchange, trading pair and strategy status of the metadata are left out. */
  datatype StrategyMetadata = StrategyMetadata(
    canisterId: Principal,
    strategyType: StrategyType,
    owner: Principal,
    createdAt: u64)

  datatype Index = Index(
    strategies: map<Principal, StrategyMetadata>,
    ownerStrategies: map<Principal, seq<Principal>>)

  datatype State = State(
    books: Books,
    records: Records,
    index: Index,
    idCounter: u64,
    fee: u64)

  datatype PaymentError = InvalidAmount | InsufficientBalance | TransferFailed | InvalidPrincipal | SystemError

  // ---------- Payments ----------

  function ValidateAmount(amount: u64, min: u64, max: u64): Result<(), PaymentError> {
    if amount == 0 || amount < min || amount > max then Err(InvalidAmount) else Ok(())
  }

  predicate CheckUserBalance(b: Books, user: Principal, amount: u64) {
    GetUserAccount(b, user).balance >= amount
  }

  function ProcessBalancePayment(b: Books, user: Principal, amount: u64, env: Env): Result<Books, PaymentError> {
    if ValidateAmount(amount, 1, U64_MAX).Err? then Err(InvalidAmount)
    else if !CheckUserBalance(b, user, amount) then Err(InsufficientBalance)
    else match UpdateUserBalance(b, user, amount, false, env.now)
      case Err(_) => Err(SystemError)
      case Ok(b') => Ok(RecordTransaction(b', user, amount, DeploymentFee, FeeForStrategy, env))
  }

  function ProcessBalanceRefund(s: State, user: Principal, amount: u64, id: string, env: Env): Result<State, PaymentError> {
    if ValidateAmount(amount, 1, U64_MAX).Err? then Err(InvalidAmount)
    else match UpdateUserBalance(s.books, user, amount, true, env.now)
      case Err(_) => Err(SystemError)
      case Ok(b') =>
        var b'' := RecordTransaction(b', user, amount, Refund, RefundForDeployment(id), env);
        var rs := UpdateDeploymentStatus(s.records, id, Refunded, None, Some(FeeRefunded), env.now);
        Ok(s.(books := b'', records := if rs.Ok? then rs.value else s.records))
  }

  /** The refund of the timer sweep, which leaves the record as it is. */
  function ProcessSweepRefund(b: Books, user: Principal, amount: u64, id: string, env: Env): Result<Books, PaymentError> {
    if amount == 0 then Err(InvalidAmount)
    else match UpdateUserBalance(b, user, amount, true, env.now)
      case Err(_) => Err(SystemError)
      case Ok(b') => Ok(RecordTransaction(b', user, amount, Refund, RefundForDeployment(id), env))
  }

  function CheckDeposit(user: Principal, amount: u64): Result<(), PaymentError> {
    if ValidateAmount(amount, MIN_DEPOSIT_AMOUNT, MAX_DEPOSIT_AMOUNT).Err? then Err(InvalidAmount)
    else if user == ANONYMOUS then Err(InvalidPrincipal)
    else Ok(())
  }

  function FinishDeposit(b: Books, user: Principal, amount: u64, paid: bool, env: Env): Result<Books, PaymentError> {
    if !paid then Err(TransferFailed)
    else match UpdateUserBalance(b, user, amount, true, env.now)
      case Err(_) => Err(SystemError)
      case Ok(b') => Ok(RecordTransaction(b', user, amount, Deposit, DepositOf(amount), env))
  }

  function CheckWithdrawal(b: Books, user: Principal, amount: u64, cycles: nat): Result<(), PaymentError> {
    if amount == 0 || amount > MAX_DEPOSIT_AMOUNT then Err(InvalidAmount)
    else if user == ANONYMOUS then Err(InvalidPrincipal)
    else if GetUserAccount(b, user).balance < amount then Err(InsufficientBalance)
    else if cycles < MIN_CYCLES_BALANCE then Err(SystemError)
    else Ok(())
  }

  function FinishWithdrawal(b: Books, user: Principal, amount: u64, paid: bool, env: Env): Result<Books, PaymentError> {
    if !paid then Err(TransferFailed)
    else match UpdateUserBalance(b, user, amount, false, env.now)
      case Err(_) => Err(SystemError)
      case Ok(b') => Ok(RecordTransaction(b', user, amount, Withdrawal, WithdrawalOf(amount), env))
  }

  function AdjustBalance(b: Books, user: Principal, amount: u64, reason: string, env: Env): Books {
    match UpdateUserBalance(b, user, amount, true, env.now)
    case Err(_) => b
    case Ok(b') => RecordTransaction(b', user, amount, AdminAdjustment, Reason(reason), env)
  }

  // ---------- Strategy index ----------

  function StoreStrategyMetadata(x: Index, m: StrategyMetadata): Index {
    var list := if m.owner in x.ownerStrategies then x.ownerStrategies[m.owner] else [];
    x.(strategies := x.strategies[m.canisterId := m],
       ownerStrategies := x.ownerStrategies[m.owner := list + [m.canisterId]])
  }

  function Lookup(strategies: map<Principal, StrategyMetadata>, ids: seq<Principal>): seq<StrategyMetadata> {
    if ids == [] then [] else
      var id := ids[|ids| - 1];
      Lookup(strategies, ids[..|ids| - 1]) + (if id in strategies then [strategies[id]] else [])
  }

  function GetStrategiesByOwner(x: Index, owner: Principal): seq<StrategyMetadata> {
    if owner in x.ownerStrategies then Lookup(x.strategies, x.ownerStrategies[owner]) else []
  }

  // ---------- Deployment ----------

  datatype DeploymentResult = Success(canister: Principal) | Failure(message: Message)

  datatype DeploymentError = RecordNotFound | SystemFailure

  /** The captured variables of one `execute_deployment`; `spawned` tells the task of the
      original request from a forced execution. */
  datatype Execution = Execution(id: string, record: DeploymentRecord, spawned: bool, caller: Principal)

  /** A suspended message, waiting for the answer to a call. */
  datatype Task =
    | DepositCall(user: Principal, amount: u64)
    | WithdrawCall(user: Principal, amount: u64)
    | CreateCall(x: Execution)
    | InstallCall(x: Execution, canister: Principal)
    | InitCall(x: Execution, canister: Principal)

  datatype Progress = Waiting(task: Task) | Done(result: Result<DeploymentResult, DeploymentError>)

  datatype Segment = Segment(state: State, progress: Progress)

  /** The end of an execution. The spawned task of a request refunds when it sees an error and
      the record still exists. */
  function Conclude(s: State, x: Execution, result: Result<DeploymentResult, DeploymentError>, env: Env): Segment {
    if result.Err? && x.spawned && x.id in s.records then
      var r := s.records[x.id];
      match ProcessBalanceRefund(s, r.owner, r.feeAmount, x.id, env)
      case Ok(s') => Segment(s', Done(result))
      case Err(_) => Segment(s, Done(result))
    else
      Segment(s, Done(result))
  }

  function HandleDeploymentFailure(s: State, id: string, canister: Option<Principal>, message: Message, env: Env):
    (State, Result<DeploymentResult, DeploymentError>)
  {
    match UpdateDeploymentStatus(s.records, id, DeploymentFailed, canister, Some(message), env.now)
    case Err(_) => (s, Err(SystemFailure))
    case Ok(rs) =>
      var s1 := s.(records := rs);
      match ProcessBalanceRefund(s1, rs[id].owner, rs[id].feeAmount, id, env)
      case Ok(s2) => (s2, Ok(Failure(message)))
      case Err(_) => (s1, Ok(Failure(message)))
  }

  function Fail(s: State, x: Execution, canister: Option<Principal>, message: Message, env: Env): Segment {
    var (s', result) := HandleDeploymentFailure(s, x.id, canister, message, env);
    Conclude(s', x, result, env)
  }

  /** The first segment of `execute_deployment`, up to the call that creates the canister. */
  function ExecuteDeployment(s: State, id: string, spawned: bool, cycles: nat, env: Env): Segment {
    if id !in s.records then
      Segment(s, Done(Err(RecordNotFound)))
    else
      var x := Execution(id, s.records[id], spawned, env.caller);
      if cycles < CREATION_CYCLES then Fail(s, x, None, CanisterCreationFailed, env)
      else Segment(s, Waiting(CreateCall(x)))
  }

  /** The segment after canister creation answered. */
  function AfterCreate(s: State, x: Execution, created: Option<Principal>, env: Env): Segment {
    match created
    case None => Fail(s, x, None, CanisterCreationFailed, env)
    case Some(cid) =>
      match UpdateDeploymentStatus(s.records, x.id, CanisterCreated, Some(cid), None, env.now)
      case Err(_) => Conclude(s, x, Err(SystemFailure), env)
      case Ok(rs) =>
        var s1 := s.(records := rs);
        if !x.record.strategyType.SelfHedging? then Fail(s1, x, Some(cid), ModuleNotFound, env)
        else Segment(s1, Waiting(InstallCall(x, cid)))
  }

  /** The segment after code installation answered; `decodes` tells whether the stored
      configuration can be decoded for the initialisation call. */
  function AfterInstall(s: State, x: Execution, cid: Principal, installed: bool, decodes: bool, env: Env): Segment {
    if !installed then Fail(s, x, Some(cid), CodeInstallationFailed, env)
    else
      match UpdateDeploymentStatus(s.records, x.id, CodeInstalled, Some(cid), None, env.now)
      case Err(_) => Conclude(s, x, Err(SystemFailure), env)
      case Ok(rs) =>
        var s1 := s.(records := rs);
        if !decodes then Fail(s1, x, Some(cid), InitializationFailed, env)
        else Segment(s1, Waiting(InitCall(x, cid)))
  }

  /** The last segment, after the initialisation call answered. */
  function AfterInit(s: State, x: Execution, cid: Principal, initialized: bool, decodes: bool, env: Env): Segment {
    if !initialized then Fail(s, x, Some(cid), InitializationFailed, env)
    else
      match UpdateDeploymentStatus(s.records, x.id, Initialized, Some(cid), None, env.now)
      case Err(_) => Conclude(s, x, Err(SystemFailure), env)
      case Ok(rs) =>
        var s1 := s.(records := rs);
        if !decodes then Fail(s1, x, Some(cid), MetadataError, env)
        else
          var m := StrategyMetadata(cid, x.record.strategyType, x.record.owner, env.now);
          var s2 := s1.(index := StoreStrategyMetadata(s1.index, m));
          match UpdateDeploymentStatus(s2.records, x.id, Deployed, Some(cid), None, env.now)
          case Err(_) => Conclude(s2, x, Err(SystemFailure), env)
          case Ok(rs') => Segment(s2.(records := rs'), Done(Ok(Success(cid))))
  }

  /** A request as far as the factory looks at it: its type, whether `validate` accepts it and
      whether it can be serialized. */
  datatype Request = Request(strategyType: StrategyType, valid: bool, encodes: bool)

  datatype RequestError = ConfigError | PaymentFailed(error: PaymentError) | NoModule

  function NewRecord(id: string, strategyType: StrategyType, owner: Principal, fee: u64, now: u64): DeploymentRecord {
    DeploymentRecord(id, strategyType, owner, fee, now, PaymentReceived, None, None, now)
  }

  /** State, suspended task if any, and the answer to the caller. */
  datatype RequestSegment = RequestSegment(state: State, next: Option<Task>, answer: Result<string, RequestError>)

  /** `create_strategy_request` up to the first call of the task it spawns. */
  function CreateStrategyRequest(s: State, request: Request, cycles: nat, env: Env): RequestSegment {
    if !request.valid then RequestSegment(s, None, Err(ConfigError))
    else if !request.strategyType.SelfHedging? then RequestSegment(s, None, Err(NoModule))
    else match ProcessBalancePayment(s.books, env.caller, s.fee, env)
      case Err(e) => RequestSegment(s, None, Err(PaymentFailed(e)))
      case Ok(b) =>
        var id := Ids.DeploymentId(env.now, env.caller, s.idCounter);
        var s1 := s.(books := b, idCounter := WrapAdd64(s.idCounter, 1));
        if !request.encodes then RequestSegment(s1, None, Err(ConfigError))
        else
          var s2 := s1.(records := s1.records[id := NewRecord(id, request.strategyType, env.caller, s.fee, env.now)]);
          var g := ExecuteDeployment(s2, id, true, cycles, env);
          RequestSegment(g.state, if g.progress.Waiting? then Some(g.progress.task) else None, Ok(id))
  }

  // ---------- Maintenance ----------

  /** The records a sweep starts from, in iteration order. */
  function FailedRecords(rs: Records, order: seq<string>): seq<DeploymentRecord> {
    if order == [] then [] else
      var id := order[|order| - 1];
      FailedRecords(rs, order[..|order| - 1]) +
      (if id in rs && rs[id].status.DeploymentFailed? then [rs[id]] else [])
  }

  function SweepRecords(b: Books, failed: seq<DeploymentRecord>, env: Env): (Books, nat) {
    if failed == [] then (b, 0) else
      var (b1, n) := SweepRecords(b, failed[..|failed| - 1], env);
      var r := failed[|failed| - 1];
      match ProcessSweepRefund(b1, r.owner, r.feeAmount, r.deploymentId, env)
      case Ok(b2) => (b2, n + 1)
      case Err(_) => (b1, n)
  }

  /** `execute_cleanup_tasks`: archive if memory is short, then refund what is marked failed. */
  function ExecuteCleanupTasks(s: State, shouldArchive: bool, order: seq<string>, env: Env): State {
    var rs := if shouldArchive then ArchiveOldDeploymentRecords(s.records, order, env.now).0 else s.records;
    s.(records := rs, books := SweepRecords(s.books, FailedRecords(rs, order), env).0)
  }

  // ---------- Upgrade ----------

  datatype UpgradeData = UpgradeData(
    ownerStrategies: map<Principal, seq<Principal>>,
    idCounter: u64,
    fee: u64,
    transactions: map<string, TransactionRecord>,
    accounts: map<Principal, UserAccount>,
    strategies: map<Principal, StrategyMetadata>)

  function GetUpgradeData(s: State): UpgradeData {
    UpgradeData(s.index.ownerStrategies, s.idCounter, s.fee, s.books.transactions, s.books.accounts, s.index.strategies)
  }

  /** A fresh heap over unchanged stable maps. */
  function ClearHeap(s: State): State {
    s.(books := s.books.(cache := []),
       index := s.index.(ownerStrategies := map[]),
       idCounter := 0,
       fee := DEFAULT_DEPLOYMENT_FEE)
  }

  /** `post_upgrade` rebuilds the cache from the cache itself, which is empty by then. */
  function RestoreUpgradeData(s: State, d: UpgradeData): State {
    s.(books := s.books.(transactions := s.books.transactions + d.transactions, accounts := s.books.accounts + d.accounts),
       index := Index(s.index.strategies + d.strategies, d.ownerStrategies),
       idCounter := d.idCounter,
       fee := d.fee)
  }

  function Upgrade(s: State): State { RestoreUpgradeData(ClearHeap(s), GetUpgradeData(s)) }

  /** An upgrade keeps everything but the transaction cache: in particular the id counter. */
  lemma UpgradeRoundTrip(s: State)
    ensures Upgrade(s) == s.(books := s.books.(cache := []))
  {
    assert s.books.transactions + s.books.transactions == s.books.transactions;
    assert s.books.accounts + s.books.accounts == s.books.accounts;
    assert s.index.strategies + s.index.strategies == s.index.strategies;
  }
}
