/** The self-hedging strategy canister in its own imperative form: a stable cell that is read,
    changed and written back, a flag with a guard, and the shared timer helper. */
module StrategyCanister {
  import opened Common
  import S = Strategy
  import T = StrategyTimerModule
  import Hedge

  class Canister {
    var cell: S.Cell
    var inProgress: bool
    const timer: T.TimerModule

    ghost function State(): S.Canister
      reads this, timer
    {
      S.Canister(cell, inProgress, timer.State())
    }

    constructor (timer: T.TimerModule)
      ensures this.timer == timer && cell == S.Installed().cell && !inProgress
    {
      cell, inProgress := S.Installed().cell, false;
      this.timer := timer;
    }

    method InitSelfHedging(owner: Principal, config: S.Config, slippageOk: bool) returns (r: S.Answer)
      modifies this
      ensures State() == S.InitSelfHedging(old(State()), owner, config, slippageOk)
      ensures r.Success? <==> S.InitAccepted(old(State()), config, slippageOk)
    {
      if cell.owner != ANONYMOUS || config.transactionSize == 0 || config.checkInterval == 0 {
        return S.Error;
      }
      if config.pair.base == ANONYMOUS || config.pair.quote == ANONYMOUS {
        return S.Error;
      }
      if config.holdToken == ANONYMOUS || (config.pair.base != config.holdToken && config.pair.quote != config.holdToken) {
        return S.Error;
      }
      if !slippageOk {
        return S.Error;
      }
      cell := S.Cell(owner, config, S.Created, None, 0, 0, config.splitType, config.transactionSize, 0, 0, None);
      return S.Success;
    }

    method UpdateConfig(caller: Principal, self: Principal, size: u128, splitType: Hedge.OrderSplitType, interval: u64,
                        slippageOk: bool, holdToken: Principal) returns (r: S.Answer)
      modifies this
      ensures State() == S.UpdateConfig(old(State()), caller, self, size, splitType, interval, slippageOk, holdToken)
      ensures r.Error? ==> State() == old(State())
    {
      if caller != cell.owner && caller != self {
        return S.Error;
      }
      if !cell.status.Created? && !cell.status.Paused? {
        return S.Error;
      }
      if holdToken == ANONYMOUS || size == 0 || interval == 0 || !slippageOk {
        return S.Error;
      }
      var current := cell;
      var config := current.config;
      config := config.(transactionSize := size, splitType := splitType, checkInterval := interval, holdToken := holdToken);
      current := current.(config := config);
      current := current.(transactionSize := size, splitType := splitType);
      cell := current;
      return S.Success;
    }

    method UpdateVolumeConfig(caller: Principal, self: Principal, size: u128, splitType: Hedge.OrderSplitType) returns (r: S.Answer)
      modifies this
      ensures State() == S.UpdateVolumeConfig(old(State()), caller, self, size, splitType)
      ensures r.Error? ==> State() == old(State())
    {
      if caller != cell.owner && caller != self {
        return S.Error;
      }
      if !cell.status.Created? && !cell.status.Paused? {
        return S.Error;
      }
      if size == 0 {
        return S.Error;
      }
      var current := cell;
      current := current.(config := current.config.(transactionSize := size, splitType := splitType));
      current := current.(transactionSize := size, splitType := splitType);
      cell := current;
      return S.Success;
    }

    /** The last segment of `start`. */
    method FinishStart(now: u64)
      modifies this, timer
      ensures State() == S.FinishStart(old(State()), now)
    {
      timer.SetTimer(S.EXECUTION_TIMER_ID, true, now);
      cell := cell.(status := S.Running);
    }

    method Pause(caller: Principal, self: Principal) returns (r: S.Answer)
      modifies this, timer
      ensures (State(), r) == S.Pause(old(State()), caller, self)
    {
      if (caller != cell.owner && caller != self) || !cell.status.Running? {
        return S.Error;
      }
      timer.ClearTimer(S.EXECUTION_TIMER_ID);
      cell := cell.(status := S.Paused);
      return S.Success;
    }

    method Stop(caller: Principal, self: Principal) returns (r: S.Answer)
      modifies this, timer
      ensures (State(), r) == S.Stop(old(State()), caller, self)
    {
      if caller != cell.owner && caller != self {
        return S.Error;
      }
      timer.ClearTimer(S.EXECUTION_TIMER_ID);
      cell := cell.(status := S.Terminated);
      return S.Success;
    }

    method UpdateUnusedBalance(base: u128, quote: u128, now: u64)
      modifies this
      ensures State() == S.UpdateUnusedBalance(old(State()), base, quote, now)
    {
      cell := cell.(baseUnused := base, quoteUnused := quote);
      cell := cell.(lastBalanceCheck := Some(now));
    }

    /** The drop of the execution guard. */
    method Release()
      modifies this
      ensures State() == S.Release(old(State()))
    {
      inProgress := false;
    }

    method BeginExecution(now: u64) returns (b: S.Begin)
      modifies this
      ensures (State(), b) == S.BeginExecution(old(State()), now)
    {
      if !cell.status.Running? {
        return S.Rejected;
      }
      var alreadyExecuting := inProgress;
      if !alreadyExecuting {
        inProgress := true;
      }
      if alreadyExecuting {
        return S.Rejected;
      }
      var snapshot := cell;
      if snapshot.lastExecution.Some? && SatAdd64(snapshot.lastExecution.value, S.COOLDOWN_NS) > now {
        Release();
        return S.Rejected;
      }
      return S.Acquired(snapshot);
    }

    method AfterBalance(snapshot: S.Cell, answer: Option<S.Unused>, caller: Principal, self: Principal, now: u64)
      returns (r: S.AfterBalanceResult)
      modifies this, timer
      ensures (State(), r) == S.AfterBalance(old(State()), snapshot, answer, caller, self, now)
    {
      if answer.None? {
        Release();
        return S.Finished(S.Error);
      }
      var u := answer.value;
      var base, quote := u.token1, u.token0;
      if snapshot.config.pair.base == u.token0Id {
        base, quote := u.token0, u.token1;
      }
      UpdateUnusedBalance(base, quote, now);
      var holdIsBase := snapshot.config.holdToken == snapshot.config.pair.base;
      var held := if holdIsBase then base else quote;
      if held < snapshot.transactionSize / 20 {
        var _ := Pause(caller, self);
        Release();
        return S.Finished(S.Error);
      }
      var amount := held;
      if held >= snapshot.transactionSize {
        amount := snapshot.transactionSize;
      }
      if amount == 0 {
        Release();
        return S.Finished(S.Success);
      }
      return S.Trading(amount, if holdIsBase then Hedge.Sell else Hedge.Buy);
    }

    method UpdateStateAfterExecution(volume: u128, now: u64)
      modifies this
      ensures State() == S.UpdateStateAfterExecution(old(State()), volume, now)
    {
      var current := cell;
      current := current.(executionCount := (current.executionCount + 1) % TWO_64);
      current := current.(lastExecution := Some(now));
      current := current.(volumeGenerated := (current.volumeGenerated + volume) % TWO_128);
      cell := current;
    }

    method FinishExecution(config: S.Config, volume: u128, answer: Option<S.Unused>, now: u64)
      modifies this
      ensures State() == S.FinishExecution(old(State()), config, volume, answer, now)
    {
      if answer.Some? {
        UpdateUnusedBalance(S.BaseBalance(config, answer.value), S.QuoteBalance(config, answer.value), now);
      }
      UpdateStateAfterExecution(volume, now);
      Release();
    }
  }
}
