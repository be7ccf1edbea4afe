/** The strategy canister as a step machine over any interleaving of its segments. */
module StrategyMachine {
  import opened Common
  import opened StrategyTimer
  import opened Strategy
  import Hedge

  /** A suspended message. The balance check keeps the configuration it read when it began. */
  datatype Task =
    | PoolCall
    | StartCall(config: Config)
    | ApproveCall
    | BalanceCall(snapshot: Cell, caller: Principal)
    | TradeCall
    | RefreshCall(config: Config, volume: u128)
    | QueryCall(config: Config)

  /** A completed cycle: its volume and the time it was stamped with. */
  datatype Stamp = Stamp(volume: u128, at: u64)

  /** `completed` lists the successful cycles since initialisation, for specification only. */
  datatype Machine = Machine(
    c: Canister,
    now: u64,
    self: Principal,
    tasks: map<nat, Task>,
    nextTask: nat,
    completed: seq<Stamp>)

  datatype Event =
    | Tick(t: u64)
    | Init(owner: Principal, config: Config, slippageOk: bool)
    | Configure(caller: Principal, size: u128, splitType: Hedge.OrderSplitType, interval: u64, slippageOk: bool, holdToken: Principal)
    | ConfigureVolume(caller: Principal, size: u128, splitType: Hedge.OrderSplitType)
    | BeginStart(caller: Principal)
    | StartPool(task: nat, found: bool)
    | StartBalance(task: nat, answer: Option<Unused>)
    | StartApproved(task: nat, approved: bool)
    | CallPause(caller: Principal)
    | CallStop(caller: Principal)
    | BeginQuery
    | QueryAnswered(task: nat, answer: Option<Unused>)
    | Execute(caller: Principal)
    | TimerFires(timer: nat)
    | BalanceAnswered(task: nat, answer: Option<Unused>)
    | Traded(task: nat, volume: Option<u128>)
    | RefreshAnswered(task: nat, answer: Option<Unused>)
    | UpgradeCanister

  function Initial(now: u64, self: Principal): Machine { Machine(Installed(), now, self, map[], 0, []) }

  function Suspend(m: Machine, t: Task): Machine {
    m.(tasks := m.tasks[m.nextTask := t], nextTask := m.nextTask + 1)
  }

  function Resume(m: Machine, t: nat): Machine { m.(tasks := m.tasks - {t}) }

  function DoExecute(m: Machine, caller: Principal): Machine {
    var (c, begin) := BeginExecution(m.c, m.now);
    var m' := m.(c := c);
    if begin.Acquired? then Suspend(m', BalanceCall(begin.snapshot, caller)) else m'
  }

  function DoBalanceAnswered(m: Machine, task: nat, answer: Option<Unused>): Machine
    requires task in m.tasks && m.tasks[task].BalanceCall?
  {
    var t := m.tasks[task];
    var (c, result) := AfterBalance(m.c, t.snapshot, answer, t.caller, m.self, m.now);
    var m' := Resume(m, task).(c := c);
    if result.Trading? then Suspend(m', TradeCall) else m'
  }

  function DoTraded(m: Machine, task: nat, volume: Option<u128>): Machine
    requires task in m.tasks && m.tasks[task].TradeCall?
  {
    var m' := Resume(m, task);
    match volume
    case None => m'.(c := Release(m.c))
    case Some(v) => Suspend(m', RefreshCall(m.c.cell.config, v))
  }

  function DoRefreshAnswered(m: Machine, task: nat, answer: Option<Unused>): Machine
    requires task in m.tasks && m.tasks[task].RefreshCall?
  {
    var t := m.tasks[task];
    Resume(m, task).(c := FinishExecution(m.c, t.config, t.volume, answer, m.now),
                     completed := m.completed + [Stamp(t.volume, m.now)])
  }

  /** `start` after the look-up of the pool: the balance check reads the configuration anew. */
  function DoStartPool(m: Machine, task: nat, found: bool): Machine
    requires task in m.tasks && m.tasks[task].PoolCall?
  {
    var m' := Resume(m, task);
    if found then Suspend(m', StartCall(m.c.cell.config)) else m'
  }

  /** `start` after the balance check answered. */
  function DoStartBalance(m: Machine, task: nat, answer: Option<Unused>): Machine
    requires task in m.tasks && m.tasks[task].StartCall?
  {
    var m' := Resume(m, task);
    match answer
    case None => m'
    case Some(u) =>
      var base, quote := BaseBalance(m.tasks[task].config, u), QuoteBalance(m.tasks[task].config, u);
      var m'' := m'.(c := UpdateUnusedBalance(m.c, base, quote, m.now));
      if base == 0 && quote == 0 then m'' else Suspend(m'', ApproveCall)
  }

  function DoStartApproved(m: Machine, task: nat, approved: bool): Machine
    requires task in m.tasks && m.tasks[task].ApproveCall?
  {
    var m' := Resume(m, task);
    if approved then m'.(c := FinishStart(m.c, m.now)) else m'
  }

  /** The balance check of a refresh, a deposit or a withdrawal. */
  function DoQueryAnswered(m: Machine, task: nat, answer: Option<Unused>): Machine
    requires task in m.tasks && m.tasks[task].QueryCall?
  {
    var config := m.tasks[task].config;
    var m' := Resume(m, task);
    match answer
    case None => m'
    case Some(u) => m'.(c := UpdateUnusedBalance(m.c, BaseBalance(config, u), QuoteBalance(config, u), m.now))
  }

  function DoInit(m: Machine, owner: Principal, config: Config, slippageOk: bool): Machine {
    if InitAccepted(m.c, config, slippageOk) then
      m.(c := InitSelfHedging(m.c, owner, config, slippageOk), completed := [])
    else m
  }

  /** One step; impossible events leave the machine as it is. */
  function Step(m: Machine, e: Event): Machine {
    match e
    case Tick(t) => if m.now <= t then m.(now := t) else m
    case Init(owner, config, slippageOk) => DoInit(m, owner, config, slippageOk)
    case Configure(caller, size, splitType, interval, slippageOk, holdToken) =>
      m.(c := UpdateConfig(m.c, caller, m.self, size, splitType, interval, slippageOk, holdToken))
    case ConfigureVolume(caller, size, splitType) => m.(c := UpdateVolumeConfig(m.c, caller, m.self, size, splitType))
    case BeginStart(caller) => if StartAllowed(m.c, caller, m.self) then Suspend(m, PoolCall) else m
    case StartPool(task, found) =>
      if task in m.tasks && m.tasks[task].PoolCall? then DoStartPool(m, task, found) else m
    case StartBalance(task, answer) =>
      if task in m.tasks && m.tasks[task].StartCall? then DoStartBalance(m, task, answer) else m
    case StartApproved(task, approved) =>
      if task in m.tasks && m.tasks[task].ApproveCall? then DoStartApproved(m, task, approved) else m
    case CallPause(caller) => m.(c := Pause(m.c, caller, m.self).0)
    case CallStop(caller) => m.(c := Stop(m.c, caller, m.self).0)
    case BeginQuery => Suspend(m, QueryCall(m.c.cell.config))
    case QueryAnswered(task, answer) =>
      if task in m.tasks && m.tasks[task].QueryCall? then DoQueryAnswered(m, task, answer) else m
    case Execute(caller) => DoExecute(m, caller)
    case TimerFires(timer) => if timer in m.c.timers.armed then DoExecute(m, m.self) else m
    case BalanceAnswered(task, answer) =>
      if task in m.tasks && m.tasks[task].BalanceCall? then DoBalanceAnswered(m, task, answer) else m
    case Traded(task, volume) =>
      if task in m.tasks && m.tasks[task].TradeCall? then DoTraded(m, task, volume) else m
    case RefreshAnswered(task, answer) =>
      if task in m.tasks && m.tasks[task].RefreshCall? then DoRefreshAnswered(m, task, answer) else m
    case UpgradeCanister => m.(c := Upgrade(m.c), tasks := map[])
  }

  /** A run: its events and the states at its yield points. */
  datatype Run = Run(events: seq<Event>, states: seq<Machine>)

  ghost predicate IsRun(r: Run) {
    && |r.states| == |r.events| + 1
    && (exists now: u64, self: Principal :: r.states[0] == Initial(now, self))
    && (forall i {:trigger r.events[i]} :: 0 <= i < |r.events| ==> r.states[i + 1] == Step(r.states[i], r.events[i]))
  }

  ghost predicate YieldPoint(r: Run, k: nat) { IsRun(r) && k < |r.states| }

  // ---------- Single execution ----------

  predicate IsExecution(t: Task) { t.BalanceCall? || t.TradeCall? || t.RefreshCall? }

  /** The executions past acquisition of the flag. */
  ghost function Executions(tasks: map<nat, Task>): set<nat> { set t | t in tasks && IsExecution(tasks[t]) }

  function TotalVolume(stamps: seq<Stamp>): nat {
    if stamps == [] then 0 else TotalVolume(stamps[..|stamps| - 1]) + stamps[|stamps| - 1].volume
  }

  /** Stamp `b` comes at least the cooldown after `a`, clamped at the end of time. */
  predicate Spaced(a: u64, b: u64) { SatAdd64(a, COOLDOWN_NS) <= b }

  ghost predicate CountersOk(cell: Cell, completed: seq<Stamp>) {
    && cell.executionCount == |completed| % TWO_64
    && cell.volumeGenerated == TotalVolume(completed) % TWO_128
    && cell.lastExecution == (if completed == [] then None else Some(completed[|completed| - 1].at))
  }

  ghost predicate StampsSpaced(completed: seq<Stamp>) {
    forall i :: 0 <= i < |completed| - 1 ==> Spaced(completed[i].at, completed[i + 1].at)
  }

  ghost predicate SingleExecution(m: Machine) {
    && |Executions(m.tasks)| == (if m.c.inProgress then 1 else 0)
    && (forall t :: t in m.tasks ==> t < m.nextTask)
    && CountersOk(m.c.cell, m.completed)
    && StampsSpaced(m.completed)
    && (m.c.inProgress && m.c.cell.lastExecution.Some? ==> Spaced(m.c.cell.lastExecution.value, m.now))
  }

  lemma ExecutionsResume(tasks: map<nat, Task>, t: nat)
    requires t in tasks
    ensures |Executions(tasks - {t})| == |Executions(tasks)| - (if IsExecution(tasks[t]) then 1 else 0)
  {
    assert Executions(tasks - {t}) == Executions(tasks) - {t};
  }

  lemma ExecutionsSuspend(tasks: map<nat, Task>, t: nat, task: Task)
    requires t !in tasks
    ensures |Executions(tasks[t := task])| == |Executions(tasks)| + (if IsExecution(task) then 1 else 0)
  {
    if IsExecution(task) {
      assert Executions(tasks[t := task]) == Executions(tasks) + {t};
    } else {
      assert Executions(tasks[t := task]) == Executions(tasks);
    }
  }

  lemma InProgressWhileExecuting(m: Machine, t: nat)
    requires SingleExecution(m) && t in m.tasks && IsExecution(m.tasks[t])
    ensures m.c.inProgress
  {
    assert t in Executions(m.tasks);
  }

  lemma CountersAfterStamp(cell: Cell, completed: seq<Stamp>, volume: u128, now: u64)
    requires CountersOk(cell, completed)
    ensures CountersOk(cell.(executionCount := (cell.executionCount + 1) % TWO_64, lastExecution := Some(now),
                             volumeGenerated := (cell.volumeGenerated + volume) % TWO_128),
                       completed + [Stamp(volume, now)])
  {
    assert (completed + [Stamp(volume, now)])[..|completed|] == completed;
  }

  lemma SpacedAfterStamp(completed: seq<Stamp>, volume: u128, now: u64)
    requires StampsSpaced(completed) && (completed != [] ==> Spaced(completed[|completed| - 1].at, now))
    ensures StampsSpaced(completed + [Stamp(volume, now)])
  {
  }

  lemma SingleAfterExecute(m: Machine, caller: Principal)
    requires SingleExecution(m)
    ensures SingleExecution(DoExecute(m, caller))
  {
    hide CountersOk, StampsSpaced;
    var (c, begin) := BeginExecution(m.c, m.now);
    if begin.Acquired? {
      ExecutionsSuspend(m.tasks, m.nextTask, BalanceCall(begin.snapshot, caller));
    }
  }

  /** What the balance segment leaves alone. */
  lemma AfterBalanceFrame(c: Canister, snapshot: Cell, answer: Option<Unused>, caller: Principal, self: Principal, now: u64)
    ensures var (c', result) := AfterBalance(c, snapshot, answer, caller, self, now);
            && (result.Trading? ==> c'.inProgress == c.inProgress)
            && (result.Finished? ==> !c'.inProgress)
            && c'.cell.executionCount == c.cell.executionCount && c'.cell.volumeGenerated == c.cell.volumeGenerated
            && c'.cell.lastExecution == c.cell.lastExecution
  {
  }

  lemma SingleAfterBalance(m: Machine, task: nat, answer: Option<Unused>)
    requires SingleExecution(m) && task in m.tasks && m.tasks[task].BalanceCall?
    ensures SingleExecution(DoBalanceAnswered(m, task, answer))
  {
    hide AfterBalance, StampsSpaced;
    var t := m.tasks[task];
    InProgressWhileExecuting(m, task);
    ExecutionsResume(m.tasks, task);
    AfterBalanceFrame(m.c, t.snapshot, answer, t.caller, m.self, m.now);
    ExecutionsSuspend(m.tasks - {task}, m.nextTask, TradeCall);
    var m' := DoBalanceAnswered(m, task, answer);
    var result := AfterBalance(m.c, t.snapshot, answer, t.caller, m.self, m.now).1;
    if result.Trading? {
      assert m'.tasks == (m.tasks - {task})[m.nextTask := TradeCall];
    } else {
      assert m'.tasks == m.tasks - {task};
    }
  }

  lemma SingleAfterTraded(m: Machine, task: nat, volume: Option<u128>)
    requires SingleExecution(m) && task in m.tasks && m.tasks[task].TradeCall?
    ensures SingleExecution(DoTraded(m, task, volume))
  {
    hide StampsSpaced, CountersOk;
    InProgressWhileExecuting(m, task);
    ExecutionsResume(m.tasks, task);
    if volume.Some? {
      ExecutionsSuspend(m.tasks - {task}, m.nextTask, RefreshCall(m.c.cell.config, volume.value));
    }
  }

  lemma SingleAfterRefresh(m: Machine, task: nat, answer: Option<Unused>)
    requires SingleExecution(m) && task in m.tasks && m.tasks[task].RefreshCall?
    ensures SingleExecution(DoRefreshAnswered(m, task, answer))
  {
    var t := m.tasks[task];
    InProgressWhileExecuting(m, task);
    ExecutionsResume(m.tasks, task);
    CountersAfterStamp(m.c.cell, m.completed, t.volume, m.now);
    SpacedAfterStamp(m.completed, t.volume, m.now);
  }

  /** A step of `start` or another update of the cell that is not an execution. */
  lemma SingleAfterOther(m: Machine, m': Machine)
    requires SingleExecution(m)
    requires m'.c.inProgress == m.c.inProgress && m'.completed == m.completed && m'.now >= m.now
    requires m'.c.cell.executionCount == m.c.cell.executionCount && m'.c.cell.volumeGenerated == m.c.cell.volumeGenerated
    requires m'.c.cell.lastExecution == m.c.cell.lastExecution
    requires |Executions(m'.tasks)| == |Executions(m.tasks)| && forall t :: t in m'.tasks ==> t < m'.nextTask
    ensures SingleExecution(m')
  {
    hide StampsSpaced;
  }

  lemma SingleAfterStart(m: Machine, e: Event)
    requires SingleExecution(m) && (e.BeginStart? || e.StartPool? || e.StartBalance? || e.StartApproved? || e.BeginQuery? || e.QueryAnswered?)
    ensures SingleExecution(Step(m, e))
  {
    hide CountersOk, StampsSpaced, SetTimer;
    match e
    case BeginStart(caller) =>
      ExecutionsSuspend(m.tasks, m.nextTask, PoolCall);
      SingleAfterOther(m, Step(m, e));
    case StartPool(task, found) =>
      if task in m.tasks && m.tasks[task].PoolCall? {
        ExecutionsResume(m.tasks, task);
        ExecutionsSuspend(m.tasks - {task}, m.nextTask, StartCall(m.c.cell.config));
        SingleAfterOther(m, Step(m, e));
      }
    case BeginQuery =>
      ExecutionsSuspend(m.tasks, m.nextTask, QueryCall(m.c.cell.config));
      SingleAfterOther(m, Step(m, e));
    case QueryAnswered(task, answer) =>
      if task in m.tasks && m.tasks[task].QueryCall? {
        ExecutionsResume(m.tasks, task);
        SingleAfterOther(m, Step(m, e));
      }
    case StartBalance(task, answer) =>
      if task in m.tasks && m.tasks[task].StartCall? {
        ExecutionsResume(m.tasks, task);
        ExecutionsSuspend(m.tasks - {task}, m.nextTask, ApproveCall);
        SingleAfterOther(m, Step(m, e));
      }
    case StartApproved(task, approved) =>
      if task in m.tasks && m.tasks[task].ApproveCall? {
        ExecutionsResume(m.tasks, task);
        SingleAfterOther(m, Step(m, e));
      }
  }

  lemma SingleAfterStep(m: Machine, e: Event)
    requires SingleExecution(m)
    ensures SingleExecution(Step(m, e))
  {
    hide DoExecute, DoBalanceAnswered, DoTraded, DoRefreshAnswered, DoStartPool, DoStartBalance, DoStartApproved, DoQueryAnswered,
         SetTimer, ClearTimer;
    match e
    case Init(owner, config, slippageOk) =>
    case BeginStart(_) => SingleAfterStart(m, e);
    case StartPool(_, _) => SingleAfterStart(m, e);
    case BeginQuery => SingleAfterStart(m, e);
    case QueryAnswered(_, _) => SingleAfterStart(m, e);
    case StartBalance(_, _) => SingleAfterStart(m, e);
    case StartApproved(_, _) => SingleAfterStart(m, e);
    case Execute(caller) => SingleAfterExecute(m, caller);
    case TimerFires(timer) => SingleAfterExecute(m, m.self);
    case BalanceAnswered(task, answer) =>
      if task in m.tasks && m.tasks[task].BalanceCall? { SingleAfterBalance(m, task, answer); }
    case Traded(task, volume) =>
      if task in m.tasks && m.tasks[task].TradeCall? { SingleAfterTraded(m, task, volume); }
    case RefreshAnswered(task, answer) =>
      if task in m.tasks && m.tasks[task].RefreshCall? { SingleAfterRefresh(m, task, answer); }
    case UpgradeCanister => assert Executions(map[]) == {};
    case _ => SingleAfterOther(m, Step(m, e));
  }

  lemma {:induction false} SingleOnEveryRun(r: Run, k: nat)
    requires YieldPoint(r, k)
    ensures SingleExecution(r.states[k])
  {
    if k == 0 {
      assert Executions(map[]) == {};
    } else {
      hide SingleExecution, Step;
      var e := r.events[k - 1];
      SingleOnEveryRun(r, k - 1);
      SingleAfterStep(r.states[k - 1], e);
    }
  }

  /** On every run, at every yield point: the flag is set exactly while one execution is past
      acquisition, there is never a second one, and the counters are the number and the total
      volume of the completed cycles, so no update is lost. */
  lemma OneExecutionAtATime(r: Run, k: nat)
    requires YieldPoint(r, k)
    ensures var m := r.states[k];
            && (m.c.inProgress <==> |Executions(m.tasks)| == 1)
            && |Executions(m.tasks)| <= 1
            && m.c.cell.executionCount == |m.completed| % TWO_64
            && m.c.cell.volumeGenerated == TotalVolume(m.completed) % TWO_128
  {
    SingleOnEveryRun(r, k);
  }

  /** Consecutive completions are at least five seconds apart; only a completion stamped within
      five seconds of the largest representable time escapes the cooldown. */
  lemma CompletionsAreSpaced(r: Run, k: nat, i: nat)
    requires YieldPoint(r, k) && i + 1 < |r.states[k].completed|
    ensures var a, b := r.states[k].completed[i].at, r.states[k].completed[i + 1].at;
            a + COOLDOWN_NS <= U64_MAX ==> b - a >= COOLDOWN_NS
  {
    SingleOnEveryRun(r, k);
    assert Spaced(r.states[k].completed[i].at, r.states[k].completed[i + 1].at);
  }

  /** A call that is turned away changes nothing: above all it does not release the flag. */
  lemma RejectedCallChangesNothing(m: Machine, caller: Principal)
    requires BeginExecution(m.c, m.now).1.Rejected?
    ensures Step(m, Execute(caller)) == m
    ensures m.c.inProgress ==> Step(m, Execute(caller)).c.inProgress
  {
  }

  // ---------- Timer and status ----------

  /** The registry holds exactly the live timers, and there is one live execution timer exactly
      while the status is Running. */
  ghost predicate Agreement(c: Canister) {
    && RegistryOk(c.timers)
    && c.timers.timers.Keys == (if c.cell.status.Running? then {EXECUTION_TIMER_ID} else {})
  }

  lemma AgreementMeansOneTimer(c: Canister)
    requires Agreement(c)
    ensures |c.timers.armed| == (if c.cell.status.Running? then 1 else 0)
    ensures c.timers.armed == c.timers.timers.Values
  {
    forall t ensures t in c.timers.armed <==> t in c.timers.timers.Values {
      if t in c.timers.armed {
        var id :| id in c.timers.timers && c.timers.timers[id] == t;
      }
      if t in c.timers.timers.Values {
        var id :| id in c.timers.timers && c.timers.timers[id] == t;
        assert c.timers.timers[id] in c.timers.armed;
      }
    }
    if c.cell.status.Running? {
      assert EXECUTION_TIMER_ID in c.timers.timers;
      assert c.timers.armed == {c.timers.timers[EXECUTION_TIMER_ID]};
    } else {
      assert c.timers.armed == {};
    }
  }

  lemma AgreementAfterClear(c: Canister, status: StrategyStatus)
    requires Agreement(c) && !status.Running?
    ensures Agreement(c.(timers := ClearTimer(c.timers, EXECUTION_TIMER_ID), cell := c.cell.(status := status)))
  {
    ClearKeepsRegistry(c.timers, EXECUTION_TIMER_ID);
  }

  lemma AgreementAfterStart(c: Canister, now: u64)
    requires Agreement(c)
    ensures Agreement(FinishStart(c, now))
  {
    SetKeepsRegistry(c.timers, EXECUTION_TIMER_ID, true, now);
    var r := SetTimer(c.timers, EXECUTION_TIMER_ID, true, now);
    assert forall i :: i in r.timers ==> i == EXECUTION_TIMER_ID;
  }

  lemma AgreementAfterPause(c: Canister, caller: Principal, self: Principal)
    requires Agreement(c)
    ensures Agreement(Pause(c, caller, self).0)
  {
    if Pause(c, caller, self).1.Success? {
      AgreementAfterClear(c, Paused);
    }
  }

  lemma AgreementAfterBalance(c: Canister, snapshot: Cell, answer: Option<Unused>, caller: Principal, self: Principal, now: u64)
    requires Agreement(c)
    ensures Agreement(AfterBalance(c, snapshot, answer, caller, self, now).0)
  {
    hide RegistryOk, ClearTimer;
    if answer.Some? {
      var base, quote := BaseBalance(snapshot.config, answer.value), QuoteBalance(snapshot.config, answer.value);
      AgreementAfterPause(UpdateUnusedBalance(c, base, quote, now), caller, self);
    }
  }

  /** An initialisation keeps the agreement exactly if it is rejected or finds no running timer;
      an anonymous caller may have started the canister before. */
  lemma InitKeepsAgreement(m: Machine, owner: Principal, config: Config, slippageOk: bool)
    requires Agreement(m.c)
    ensures Agreement(Step(m, Init(owner, config, slippageOk)).c) <==>
              !InitAccepted(m.c, config, slippageOk) || !m.c.cell.status.Running?
  {
    assert EXECUTION_TIMER_ID in {EXECUTION_TIMER_ID};
  }

  /** An upgrade keeps it exactly if the strategy was not running: it does not restart the timer. */
  lemma UpgradeKeepsAgreement(m: Machine)
    requires Agreement(m.c)
    ensures Agreement(Step(m, UpgradeCanister).c) <==> !m.c.cell.status.Running?
  {
    assert EXECUTION_TIMER_ID in {EXECUTION_TIMER_ID};
  }

  /** The two steps that do not keep the agreement. */
  predicate Disturbs(m: Machine, e: Event) {
    m.c.cell.status.Running? && (e.UpgradeCanister? || (e.Init? && InitAccepted(m.c, e.config, e.slippageOk)))
  }

  /** Every step keeps the agreement, and exactly the two that meet a running strategy do not:
      concurrent starts, pauses and stops during a start, and the pause an execution makes by
      itself all do. */
  lemma AgreementAfterStep(m: Machine, e: Event)
    requires Agreement(m.c)
    ensures Agreement(Step(m, e).c) <==> !Disturbs(m, e)
  {
    if e.Init? {
      InitKeepsAgreement(m, e.owner, e.config, e.slippageOk);
    } else if e.UpgradeCanister? {
      UpgradeKeepsAgreement(m);
    } else {
      AgreementAfterCall(m, e);
    }
  }

  lemma AgreementAfterCall(m: Machine, e: Event)
    requires Agreement(m.c) && !e.Init? && !e.UpgradeCanister?
    ensures Agreement(Step(m, e).c)
  {
    hide RegistryOk, AfterBalance, SetTimer, ClearTimer;
    match e
    case StartApproved(task, approved) => AgreementAfterStart(m.c, m.now);
    case CallPause(caller) => AgreementAfterPause(m.c, caller, m.self);
    case CallStop(caller) => AgreementAfterClear(m.c, Terminated);
    case BalanceAnswered(task, answer) =>
      if task in m.tasks && m.tasks[task].BalanceCall? {
        var t := m.tasks[task];
        AgreementAfterBalance(m.c, t.snapshot, answer, t.caller, m.self, m.now);
      }
    case _ =>
  }

  /** No earlier upgrade or accepted initialisation met a running strategy. */
  ghost predicate Undisturbed(r: Run, k: nat)
    requires YieldPoint(r, k)
  {
    forall i {:trigger r.events[i]} :: 0 <= i < k ==> !Disturbs(r.states[i], r.events[i])
  }

  lemma {:induction false} AgreementOnEveryRun(r: Run, k: nat)
    requires YieldPoint(r, k) && Undisturbed(r, k)
    ensures Agreement(r.states[k].c)
  {
    if k > 0 {
      hide Agreement, Step;
      AgreementOnEveryRun(r, k - 1);
      AgreementAfterStep(r.states[k - 1], r.events[k - 1]);
    }
  }

  /** At every yield point of an undisturbed run, from installation on and whoever calls, the
      status is Running exactly if there is one live timer, there is never more than one, and the
      registry lists exactly the live ones. */
  lemma TimerFollowsStatus(r: Run, k: nat)
    requires YieldPoint(r, k) && Undisturbed(r, k)
    ensures var c := r.states[k].c;
            && (c.cell.status.Running? <==> |c.timers.armed| == 1)
            && |c.timers.armed| <= 1
            && c.timers.armed == c.timers.timers.Values
  {
    AgreementOnEveryRun(r, k);
    AgreementMeansOneTimer(r.states[k].c);
  }
}
