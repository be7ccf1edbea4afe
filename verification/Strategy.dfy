/** The self-hedging strategy canister: what each message segment does to its memory. */
module Strategy {
  import opened Common
  import opened StrategyTimer
  import Hedge
  import Split

  const EXECUTION_TIMER_ID := "self_hedging_execution"
  const COOLDOWN_NS: u64 := 5_000_000_000

  datatype StrategyStatus = Created | Running | Paused | EmergencyStopped | Terminated

  /** Exchange, token metadata and slippage tolerance are left out. */
  datatype Config = Config(
    pair: Hedge.Pair,
    holdToken: Principal,
    transactionSize: u128,
    splitType: Hedge.OrderSplitType,
    checkInterval: u64)

  /** The stable cell. */
  datatype Cell = Cell(
    owner: Principal,
    config: Config,
    status: StrategyStatus,
    lastExecution: Option<u64>,
    executionCount: u64,
    volumeGenerated: u128,
    splitType: Hedge.OrderSplitType,
    transactionSize: u128,
    baseUnused: u128,
    quoteUnused: u128,
    lastBalanceCheck: Option<u64>)

  /** The cell, the in-progress flag and the timer registry. */
  datatype Canister = Canister(cell: Cell, inProgress: bool, timers: Registry)

  const NO_CONFIG := Config(Hedge.Pair(ANONYMOUS, ANONYMOUS), ANONYMOUS, 0, Hedge.NoSplit, 0)

  function Installed(): Canister {
    Canister(Cell(ANONYMOUS, NO_CONFIG, Created, None, 0, 0, Hedge.NoSplit, 0, 0, 0, None), false,
             Registry(map[], map[], {}, 0))
  }

  datatype Answer = Success | Error

  predicate VerifyOwner(c: Canister, caller: Principal, self: Principal) {
    caller == c.cell.owner || caller == self
  }

  // ---------- Initialisation and configuration ----------

  predicate InitAccepted(c: Canister, config: Config, slippageOk: bool) {
    && c.cell.owner == ANONYMOUS
    && config.transactionSize != 0 && config.checkInterval != 0
    && config.pair.base != ANONYMOUS && config.pair.quote != ANONYMOUS
    && config.holdToken != ANONYMOUS && (config.pair.base == config.holdToken || config.pair.quote == config.holdToken)
    && slippageOk
  }

  function InitSelfHedging(c: Canister, owner: Principal, config: Config, slippageOk: bool): Canister {
    if !InitAccepted(c, config, slippageOk) then c
    else c.(cell := Cell(owner, config, Created, None, 0, 0, config.splitType, config.transactionSize, 0, 0, None))
  }

  /** `update_config`; the hold token need not be one of the pair. */
  function UpdateConfig(c: Canister, caller: Principal, self: Principal, size: u128, splitType: Hedge.OrderSplitType,
                        interval: u64, slippageOk: bool, holdToken: Principal): Canister
  {
    if !VerifyOwner(c, caller, self) || !(c.cell.status.Created? || c.cell.status.Paused?)
       || holdToken == ANONYMOUS || size == 0 || interval == 0 || !slippageOk
    then c
    else c.(cell := c.cell.(
              config := c.cell.config.(transactionSize := size, splitType := splitType, checkInterval := interval, holdToken := holdToken),
              transactionSize := size,
              splitType := splitType))
  }

  function UpdateVolumeConfig(c: Canister, caller: Principal, self: Principal, size: u128, splitType: Hedge.OrderSplitType): Canister {
    if !VerifyOwner(c, caller, self) || !(c.cell.status.Created? || c.cell.status.Paused?) || size == 0 then c
    else c.(cell := c.cell.(
              config := c.cell.config.(transactionSize := size, splitType := splitType),
              transactionSize := size,
              splitType := splitType))
  }

  // ---------- Start, pause, stop ----------

  predicate StartAllowed(c: Canister, caller: Principal, self: Principal) {
    VerifyOwner(c, caller, self) && (c.cell.status.Created? || c.cell.status.Paused? || c.cell.status.Terminated?)
  }

  /** The last segment of `start`: the status is not looked at again. */
  function FinishStart(c: Canister, now: u64): Canister {
    c.(timers := SetTimer(c.timers, EXECUTION_TIMER_ID, true, now), cell := c.cell.(status := Running))
  }

  function Pause(c: Canister, caller: Principal, self: Principal): (Canister, Answer) {
    if !VerifyOwner(c, caller, self) || !c.cell.status.Running? then (c, Error)
    else (c.(timers := ClearTimer(c.timers, EXECUTION_TIMER_ID), cell := c.cell.(status := Paused)), Success)
  }

  function Stop(c: Canister, caller: Principal, self: Principal): (Canister, Answer) {
    if !VerifyOwner(c, caller, self) then (c, Error)
    else (c.(timers := ClearTimer(c.timers, EXECUTION_TIMER_ID), cell := c.cell.(status := Terminated)), Success)
  }

  // ---------- Balances ----------

  /** The pool's answer: both balances in its token order and the id of its first token. */
  datatype Unused = Unused(token0: u128, token1: u128, token0Id: Principal)

  function BaseBalance(config: Config, u: Unused): u128 { if config.pair.base == u.token0Id then u.token0 else u.token1 }

  function QuoteBalance(config: Config, u: Unused): u128 { if config.pair.base == u.token0Id then u.token1 else u.token0 }

  predicate HoldIsBase(snapshot: Cell) { snapshot.config.holdToken == snapshot.config.pair.base }

  /** The reported balance of the token that will be sold. */
  function Held(snapshot: Cell, u: Unused): u128 {
    if HoldIsBase(snapshot) then BaseBalance(snapshot.config, u) else QuoteBalance(snapshot.config, u)
  }

  function UpdateUnusedBalance(c: Canister, base: u128, quote: u128, now: u64): Canister {
    c.(cell := c.cell.(baseUnused := base, quoteUnused := quote, lastBalanceCheck := Some(now)))
  }

  // ---------- One execution ----------

  datatype Begin = Rejected | Acquired(snapshot: Cell)

  /** The first segment of `execute_once`. A call rejected because of the flag leaves it set;
      one rejected by the cooldown took the flag and its guard releases it again. */
  function BeginExecution(c: Canister, now: u64): (Canister, Begin) {
    if !c.cell.status.Running? then (c, Rejected)
    else if c.inProgress then (c, Rejected)
    else if c.cell.lastExecution.Some? && SatAdd64(c.cell.lastExecution.value, COOLDOWN_NS) > now then
      (c.(inProgress := false), Rejected)
    else (c.(inProgress := true), Acquired(c.cell))
  }

  datatype AfterBalanceResult = Finished(answer: Answer) | Trading(amount: u128, direction: Hedge.TradeDirection)

  function Release(c: Canister): Canister { c.(inProgress := false) }

  /** The segment after the balance check answered. */
  function AfterBalance(c: Canister, snapshot: Cell, answer: Option<Unused>, caller: Principal, self: Principal, now: u64):
    (Canister, AfterBalanceResult)
  {
    match answer
    case None => (Release(c), Finished(Error))
    case Some(u) =>
      var base, quote := BaseBalance(snapshot.config, u), QuoteBalance(snapshot.config, u);
      var c1 := UpdateUnusedBalance(c, base, quote, now);
      var held := Held(snapshot, u);
      if held < snapshot.transactionSize / 20 then (Release(Pause(c1, caller, self).0), Finished(Error))
      else
        var amount := if held >= snapshot.transactionSize then snapshot.transactionSize else held;
        if amount == 0 then (Release(c1), Finished(Success))
        else (c1, Trading(amount, if HoldIsBase(snapshot) then Hedge.Sell else Hedge.Buy))
  }

  function UpdateStateAfterExecution(c: Canister, volume: u128, now: u64): Canister {
    c.(cell := c.cell.(
         executionCount := (c.cell.executionCount + 1) % TWO_64,
         lastExecution := Some(now),
         volumeGenerated := (c.cell.volumeGenerated + volume) % TWO_128))
  }

  /** The last segment of a successful cycle, after the closing balance check answered. */
  function FinishExecution(c: Canister, config: Config, volume: u128, answer: Option<Unused>, now: u64): Canister {
    var c1 := match answer
      case None => c
      case Some(u) => UpdateUnusedBalance(c, BaseBalance(config, u), QuoteBalance(config, u), now);
    Release(UpdateStateAfterExecution(c1, volume, now))
  }

  /** An upgrade keeps the stable cell and loses the flag, the registry and all timers. */
  function Upgrade(c: Canister): Canister { Canister(c.cell, false, Registry(map[], map[], {}, c.timers.next)) }

  /** What an execution decides to trade: a positive amount within the transaction size and the
      reported balance of the token it sells, at least a twentieth of the size. The token sold is
      the configured hold token exactly if that is one of the pair, which `update_config` does
      not demand. */
  lemma TradingPlan(c: Canister, snapshot: Cell, u: Unused, caller: Principal, self: Principal, now: u64)
    requires AfterBalance(c, snapshot, Some(u), caller, self, now).1.Trading?
    ensures var plan := AfterBalance(c, snapshot, Some(u), caller, self, now).1;
            var pair := snapshot.config.pair;
            var sold := Hedge.InputToken(pair, plan.direction);
            && 0 < plan.amount <= snapshot.transactionSize
            && plan.amount >= snapshot.transactionSize / 20
            && plan.amount <= (if plan.direction.Sell? then BaseBalance(snapshot.config, u) else QuoteBalance(snapshot.config, u))
            && (sold == snapshot.config.holdToken <==> snapshot.config.holdToken == pair.base || snapshot.config.holdToken == pair.quote)
  {
  }

  /** The first stage of the cycle that follows stays within the reported balance exactly if that
      balance is at least the drawn number of orders less one. */
  lemma StageOneWithinBalance(c: Canister, snapshot: Cell, u: Unused, caller: Principal, self: Principal, now: u64,
                              cycle: Hedge.Cycle, count: u64, seed: u64)
    requires AfterBalance(c, snapshot, Some(u), caller, self, now).1.Trading? && count >= 2
    requires cycle.direction == AfterBalance(c, snapshot, Some(u), caller, self, now).1.direction
    requires cycle.amounts == Split.SplitAmount(AfterBalance(c, snapshot, Some(u), caller, self, now).1.amount, count, seed)
    ensures var held := if cycle.direction.Sell? then BaseBalance(snapshot.config, u) else QuoteBalance(snapshot.config, u);
            Split.Sum(Hedge.FirstOrders(cycle)) <= held <==> held >= count - 1
  {
    hide Split.SplitAmount, Split.Sum, Hedge.FirstOrders;
    var plan := AfterBalance(c, snapshot, Some(u), caller, self, now).1;
    Hedge.FirstStageSells(cycle, plan.amount, count, seed);
  }

  /** The balances read in base and quote order are those of the tokens of these ids at the pool;
      for the quote token of a pair of one token with itself that needs equal balances. */
  lemma BalancesAreAssigned(config: Config, h: Hedge.Holdings, u: Unused)
    requires u.token0Id == Hedge.PoolToken0(config.pair) && h == Hedge.Holdings(u.token0, u.token1)
    ensures BaseBalance(config, u) == Hedge.BalanceOf(config.pair, h, config.pair.base)
    ensures QuoteBalance(config, u) == Hedge.BalanceOf(config.pair, h, config.pair.quote) <==>
            config.pair.base != config.pair.quote || u.token0 == u.token1
  {
    Hedge.LexTotal(config.pair.base, config.pair.quote);
  }
}
