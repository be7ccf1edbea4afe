/** What the strategy canister lets through and what each answer makes of it: guards with every limit
    written out, whole new cells, and the calls that get somewhere. */
module StrategyAnswers {
  import opened Common
  import opened StrategyTimer
  import opened Strategy
  import opened StrategyMachine
  import opened StrategyRuns
  import Hedge

  /** The owner, or the canister itself from its timer. */
  predicate MayCommand(c: Canister, caller: Principal, self: Principal) { caller == c.cell.owner || caller == self }

  // ---------- Beginning an execution ----------

  /** Running, nobody executing, and the last completion at least five seconds ago. */
  predicate Free(c: Canister, now: u64) {
    && c.cell.status.Running? && !c.inProgress
    && (c.cell.lastExecution.None? || Min(c.cell.lastExecution.value + 5_000_000_000, U64_MAX) <= now)
  }

  /** An execution begins exactly then, with the cell as it is, and takes the flag; otherwise the
      canister stays as it is. */
  lemma BeginsExactly(c: Canister, now: u64)
    ensures var (c', b) := BeginExecution(c, now);
            && (b.Acquired? <==> Free(c, now))
            && (b.Acquired? ==> b.snapshot == c.cell)
            && c' == (if Free(c, now) then c.(inProgress := true) else c)
  {
  }

  /** On every run: a strategy that is Running with no execution in flight, whose last cycle completed at
      least five seconds ago, begins one when it is called, by whomever, or when its timer fires. */
  lemma ExecuteBegins(r: Run, k: nat, caller: Principal, timer: nat)
    requires YieldPoint(r, k) && r.states[k].c.cell.status.Running? && Executions(r.states[k].tasks) == {}
    requires r.states[k].completed != [] ==>
               Min(r.states[k].completed[|r.states[k].completed| - 1].at + 5_000_000_000, U64_MAX) <= r.states[k].now
    ensures var m := r.states[k];
            var m' := Step(m, Execute(caller));
            && Executions(m'.tasks) == {m.nextTask} && m'.tasks[m.nextTask] == BalanceCall(m.c.cell, caller)
            && m'.c == m.c.(inProgress := true)
            && (timer in m.c.timers.armed ==> Step(m, TimerFires(timer)) == Step(m, Execute(m.self)))
  {
    var m := r.states[k];
    SingleOnEveryRun(r, k);
    BeginsExactly(m.c, m.now);
  }

  /** A timer that was cleared, or never set, begins nothing. */
  lemma DeadTimerIsSilent(m: Machine, timer: nat)
    requires timer !in m.c.timers.armed
    ensures Step(m, TimerFires(timer)) == m
  {
  }

  // ---------- The balance decides ----------

  function BaseOf(config: Config, u: Unused): u128 { if config.pair.base == u.token0Id then u.token0 else u.token1 }

  function QuoteOf(config: Config, u: Unused): u128 { if config.pair.base == u.token0Id then u.token1 else u.token0 }

  /** What a balance check writes: both balances in their places, and when. */
  predicate Checked(cell: Cell, cell': Cell, config: Config, u: Unused, now: u64) {
    cell' == cell.(baseUnused := BaseOf(config, u), quoteUnused := QuoteOf(config, u), lastBalanceCheck := Some(now))
  }

  /** The whole effect of the first balance check: without an answer the execution ends; below a
      twentieth of the transaction size it pauses the strategy if its caller may; nothing to trade ends it
      well; otherwise it trades the smaller of balance and size, selling the hold token. */
  lemma BalanceDecides(c: Canister, snapshot: Cell, answer: Option<Unused>, caller: Principal, self: Principal, now: u64)
    ensures var (c', result) := AfterBalance(c, snapshot, answer, caller, self, now);
            if answer.None? then c' == c.(inProgress := false) && result == Finished(Error)
            else
              var u, size := answer.value, snapshot.transactionSize;
              var sellsBase := snapshot.config.holdToken == snapshot.config.pair.base;
              var held := if sellsBase then BaseOf(snapshot.config, u) else QuoteOf(snapshot.config, u);
              var pauses := held < size / 20 && c.cell.status.Running? && MayCommand(c, caller, self);
              && Checked(c.cell, c'.cell.(status := c.cell.status), snapshot.config, u, now)
              && c'.cell.status == (if pauses then Paused else c.cell.status)
              && (!pauses ==> c'.timers == c.timers)
              && result == (if held < size / 20 then Finished(Error)
                            else if Min(held, size) == 0 then Finished(Success)
                            else Trading(Min(held, size), if sellsBase then Hedge.Sell else Hedge.Buy))
              && c'.inProgress == (result.Trading? && c.inProgress)
  {
    hide ClearTimer;
  }

  /** An execution that is answered well completes: it is counted with its volume and time, the closing
      balances are recorded if they arrive, and the flag is free again. */
  lemma CycleCompletes(m: Machine, t: nat, u: Unused, volume: u128, closing: Option<Unused>)
    requires t in m.tasks && m.tasks[t].BalanceCall?
    requires AfterBalance(m.c, m.tasks[t].snapshot, Some(u), m.tasks[t].caller, m.self, m.now).1.Trading?
    ensures var m1 := Step(m, BalanceAnswered(t, Some(u)));
            var m2 := Step(m1, Traded(m.nextTask, Some(volume)));
            var m3 := Step(m2, RefreshAnswered(m.nextTask + 1, closing));
            && m3.completed == m.completed + [Stamp(volume, m.now)]
            && m3.c.cell.executionCount == (m.c.cell.executionCount + 1) % TWO_64
            && m3.c.cell.volumeGenerated == (m.c.cell.volumeGenerated + volume) % TWO_128
            && m3.c.cell.lastExecution == Some(m.now) && m3.c.cell.status == m.c.cell.status
            && !m3.c.inProgress && m3.c.timers == m.c.timers
            && (if closing.Some? then
                  && m3.c.cell.baseUnused == BaseOf(m.c.cell.config, closing.value)
                  && m3.c.cell.quoteUnused == QuoteOf(m.c.cell.config, closing.value)
                else
                  && m3.c.cell.baseUnused == BaseOf(m.tasks[t].snapshot.config, u)
                  && m3.c.cell.quoteUnused == QuoteOf(m.tasks[t].snapshot.config, u))
            && m3.c.cell.lastBalanceCheck == Some(m.now)
  {
    hide ClearTimer;
  }

  // ---------- Commands ----------

  lemma PauseAnswers(c: Canister, caller: Principal, self: Principal)
    ensures var (c', answer) := Pause(c, caller, self);
            && (answer.Success? <==> MayCommand(c, caller, self) && c.cell.status.Running?)
            && c'.cell == (if answer.Success? then c.cell.(status := Paused) else c.cell)
            && c'.inProgress == c.inProgress
            && (answer.Error? ==> c' == c)
  {
    hide ClearTimer;
  }

  lemma StopAnswers(c: Canister, caller: Principal, self: Principal)
    ensures var (c', answer) := Stop(c, caller, self);
            && (answer.Success? <==> MayCommand(c, caller, self))
            && c'.cell == (if answer.Success? then c.cell.(status := Terminated) else c.cell)
            && c'.inProgress == c.inProgress
            && (answer.Error? ==> c' == c)
  {
    hide ClearTimer;
  }

  /** Who may start, and from which statuses. */
  predicate MayStart(c: Canister, caller: Principal, self: Principal) {
    MayCommand(c, caller, self) && c.cell.status in {Created, Paused, Terminated}
  }

  lemma StartBegins(m: Machine, caller: Principal)
    ensures Step(m, BeginStart(caller)) ==
            if MayStart(m.c, caller, m.self) then m.(tasks := m.tasks[m.nextTask := PoolCall], nextTask := m.nextTask + 1) else m
    ensures MayStart(m.c, caller, m.self) ==> CanRestart(Step(m, BeginStart(caller)))
  {
    if MayStart(m.c, caller, m.self) {
      var m' := Step(m, BeginStart(caller));
      assert m'.tasks[m.nextTask].PoolCall?;
      hide CanRestart, Step;
      RestartNeedsStart(m');
    }
  }

  /** A start goes on after its pool was found, reading the configuration anew, and after its balance
      check if there is any balance at all, in either token. */
  lemma StartGoesOn(m: Machine, t: nat, found: bool, answer: Option<Unused>)
    requires t in m.tasks
    ensures m.tasks[t].PoolCall? ==>
              var m' := Step(m, StartPool(t, found));
              && m'.c == m.c
              && m'.tasks == (if found then (m.tasks - {t})[m.nextTask := StartCall(m.c.cell.config)] else m.tasks - {t})
    ensures m.tasks[t].StartCall? ==>
              var m' := Step(m, StartBalance(t, answer));
              && (answer.None? ==> m'.c == m.c)
              && (answer.Some? ==> m'.c == m.c.(cell := m'.c.cell) && Checked(m.c.cell, m'.c.cell, m.tasks[t].config, answer.value, m.now))
              && m'.tasks == (if answer.Some? && (answer.value.token0 > 0 || answer.value.token1 > 0)
                              then (m.tasks - {t})[m.nextTask := ApproveCall] else m.tasks - {t})
  {
  }

  /** A refresh records what it is told, and nothing else. */
  lemma QueryRecords(m: Machine, t: nat, answer: Option<Unused>)
    requires t in m.tasks && m.tasks[t].QueryCall?
    ensures var m' := Step(m, QueryAnswered(t, answer));
            && m'.tasks == m.tasks - {t} && m'.c == m.c.(cell := m'.c.cell)
            && (if answer.Some? then Checked(m.c.cell, m'.c.cell, m.tasks[t].config, answer.value, m.now) else m'.c == m.c)
  {
  }

  // ---------- Initialisation, configuration, upgrade ----------

  /** A fresh canister belongs to nobody, is not executing and has no timers. */
  lemma InstalledIsEmpty(now: u64, self: Principal)
    ensures var m := Initial(now, self);
            && m.c.cell.owner == "2vxsx-fae" && m.c.cell.status.Created? && m.c.cell.lastExecution.None?
            && m.c.cell.executionCount == 0 && m.c.cell.volumeGenerated == 0 && m.c.cell.config.transactionSize == 0
            && !m.c.inProgress && m.c.timers.timers == map[] && m.c.timers.armed == {} && m.c.timers.lastExecution == map[]
            && m.tasks == map[] && m.completed == []
  {
  }

  /** Which initialisations are accepted, and the cell they leave. */
  lemma InitAnswers(c: Canister, owner: Principal, config: Config, slippageOk: bool)
    ensures var c' := InitSelfHedging(c, owner, config, slippageOk);
            if c.cell.owner == "2vxsx-fae" && config.transactionSize > 0 && config.checkInterval > 0 && slippageOk
               && "2vxsx-fae" !in {config.pair.base, config.pair.quote, config.holdToken}
               && config.holdToken in {config.pair.base, config.pair.quote}
            then
              && c'.cell.owner == owner && c'.cell.config == config && c'.cell.status.Created?
              && c'.cell.transactionSize == config.transactionSize && c'.cell.splitType == config.splitType
              && c'.cell.executionCount == 0 && c'.cell.volumeGenerated == 0 && c'.cell.lastExecution.None?
              && c'.cell.baseUnused == 0 && c'.cell.quoteUnused == 0 && c'.cell.lastBalanceCheck.None?
              && c'.inProgress == c.inProgress && c'.timers == c.timers
            else c' == c
  {
  }

  /** Which configurations are accepted: not while Running, Terminated or emergency-stopped. The pair
      stays, and so does everything that is not configured. */
  lemma ConfigureAnswers(c: Canister, caller: Principal, self: Principal, size: u128, splitType: Hedge.OrderSplitType,
                         interval: u64, slippageOk: bool, holdToken: Principal)
    ensures var c' := UpdateConfig(c, caller, self, size, splitType, interval, slippageOk, holdToken);
            if MayCommand(c, caller, self) && c.cell.status in {Created, Paused} && holdToken != "2vxsx-fae"
               && size > 0 && interval > 0 && slippageOk
            then
              && c'.cell.config == Config(c.cell.config.pair, holdToken, size, splitType, interval)
              && c'.cell.transactionSize == size && c'.cell.splitType == splitType
              && c' == c.(cell := c.cell.(config := c'.cell.config, transactionSize := size, splitType := splitType))
            else c' == c
    ensures var c' := UpdateVolumeConfig(c, caller, self, size, splitType);
            if MayCommand(c, caller, self) && c.cell.status in {Created, Paused} && size > 0
            then
              && c'.cell.config == Config(c.cell.config.pair, c.cell.config.holdToken, size, splitType, c.cell.config.checkInterval)
              && c'.cell.transactionSize == size && c'.cell.splitType == splitType
              && c' == c.(cell := c.cell.(config := c'.cell.config, transactionSize := size, splitType := splitType))
            else c' == c
  {
  }

  /** An upgrade keeps the cell and loses everything else. */
  lemma UpgradeKeepsCell(m: Machine)
    ensures var m' := Step(m, UpgradeCanister);
            && m'.c.cell == m.c.cell && !m'.c.inProgress && m'.tasks == map[] && m'.completed == m.completed
            && m'.c.timers.timers == map[] && m'.c.timers.armed == {} && m'.c.timers.lastExecution == map[]
  {
  }
}
